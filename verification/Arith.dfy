/** Facts about multiplication and division that the solver does not find by itself. */
module Arith {

  lemma Quotient(x: nat, d: nat, q: nat, r: nat)
    requires d > 0 && x == q * d + r && r < d
    ensures x / d == q
  {
    var q', r' := x / d, x % d;
    assert x == q' * d + r';
    assert (q - q') * d == r' - r by { Distribute(q, q', d); }
    SmallMultiple(q - q', d);
  }

  lemma Distribute(q: int, p: int, d: int)
    ensures (q - p) * d == q * d - p * d
  {}

  lemma {:induction false} MulMonotone(a: nat, b: nat, p: nat)
    requires a <= b
    ensures a * p <= b * p
    decreases b
  {
    if a < b {
      MulMonotone(a, b - 1, p);
      Distribute(b, 1, p);
    }
  }

  lemma SmallMultiple(t: int, d: int)
    requires d > 0
    ensures -d < t * d < d ==> t == 0
  {
    if t >= 1 {
      assert t * d == (t - 1) * d + d;
    } else if t <= -1 {
      assert t * d == (t + 1) * d - d;
    }
  }

  lemma DivParts(x: nat, p: nat)
    requires p > 0
    ensures x / p * p <= x < x / p * p + p
    ensures x % p == x - x / p * p
  {
    assert x == x / p * p + x % p;
  }

  lemma Remainder(x: nat, d: nat, q: nat, r: nat)
    requires d > 0 && x == q * d + r && r < d
    ensures x % d == r && x / d == q
  {
    Quotient(x, d, q, r);
    DivParts(x, d);
  }

  lemma EvenOdd(i: nat)
    ensures 2 * i / 2 == i && 2 * i % 2 == 0 && (2 * i + 1) / 2 == i && (2 * i + 1) % 2 == 1
  {}

  lemma HalfParts(x: nat, p: nat)
    requires p > 0
    ensures x / (2 * p) == x / 2 / p
    ensures x % (2 * p) == x % 2 + 2 * (x / 2 % p)
  {
    var y := x / 2;
    var q := y / p;
    DivParts(y, p);
    Reassociate(q, p);
    Remainder(x, 2 * p, q, x % 2 + 2 * (y % p));
  }

  lemma Reassociate(q: int, p: int)
    ensures q * (2 * p) == 2 * (q * p)
  {}

  /** The index i * 2p + j without its last digit. */
  lemma ComposeHalf(i: nat, p: nat, j: nat)
    ensures (i * (2 * p) + j) / 2 == i * p + j / 2
    ensures (i * (2 * p) + j) % 2 == j % 2
  {
    Reassociate(i, p);
    var m := i * p;
    assert i * (2 * p) + j == 2 * m + j;
  }

  /** Of n pieces of size p, x lies in piece x / p. */
  lemma PieceOf(x: nat, p: nat, n: nat)
    requires p > 0 && x < n * p
    ensures x / p < n && x / p * p <= x < x / p * p + p <= n * p
  {
    var i := x / p;
    DivParts(x, p);
    if i >= n { MulMonotone(n, i, p); }
    MulMonotone(i + 1, n, p);
    Distribute(i + 1, 1, p);
  }
}
