/** The C integer operations that the routing table relies on, over natural numbers.

    A machine word is a `nat` below a power of two.  Shifts, masks and population counts
    are written as the hardware computes them (digit by digit, wrapping at 64 bits); the
    specifications only speak of `Bit`, the i-th binary digit, and `Rank`, the number of
    one bits below a position. */
module Bits {

  const WORD64: nat := 0x1_0000_0000_0000_0000

  type u64 = x: nat | x < 0x1_0000_0000_0000_0000
  type u32 = x: nat | x < 0x1_0000_0000
  type u16 = x: nat | x < 0x1_0000
  type u8 = x: nat | x < 0x100

  function Pow2(n: nat): (p: nat)
    ensures p >= 1
  {
    if n == 0 then 1 else 2 * Pow2(n - 1)
  }

  /** x >> k */
  function Shr(x: nat, k: nat): nat {
    if k == 0 then x else Shr(x / 2, k - 1)
  }

  function And(x: nat, y: nat): nat {
    if x == 0 || y == 0 then 0
    else (if x % 2 == 1 && y % 2 == 1 then 1 else 0) + 2 * And(x / 2, y / 2)
  }

  function Or(x: nat, y: nat): nat {
    if x == 0 then y else if y == 0 then x
    else (if x % 2 == 1 || y % 2 == 1 then 1 else 0) + 2 * Or(x / 2, y / 2)
  }

  /** __builtin_popcountll */
  function Popcnt(x: nat): nat {
    if x == 0 then 0 else x % 2 + Popcnt(x / 2)
  }

  /** The i-th binary digit of x. */
  predicate Bit(x: nat, i: nat) {
    if i == 0 then x % 2 == 1 else Bit(x / 2, i - 1)
  }

  /** The number of one bits of x in positions below n. */
  function Rank(x: nat, n: nat): (r: nat)
    ensures r <= n
  {
    if n == 0 then 0 else Rank(x, n - 1) + (if Bit(x, n - 1) then 1 else 0)
  }

  // ----- digit-by-digit facts

  lemma {:induction false} BitOfZero(i: nat)
    ensures !Bit(0, i)
  {
    if i > 0 { BitOfZero(i - 1); }
  }

  lemma {:induction false} BitOfAnd(x: nat, y: nat, i: nat)
    ensures Bit(And(x, y), i) == (Bit(x, i) && Bit(y, i))
  {
    if x == 0 || y == 0 {
      BitOfZero(i);
    } else if i > 0 {
      BitOfAnd(x / 2, y / 2, i - 1);
    }
  }

  lemma {:induction false} BitOfOr(x: nat, y: nat, i: nat)
    ensures Bit(Or(x, y), i) == (Bit(x, i) || Bit(y, i))
  {
    if x == 0 || y == 0 {
      BitOfZero(i);
    } else if i > 0 {
      BitOfOr(x / 2, y / 2, i - 1);
    }
  }

  lemma {:induction false} BitOfPow2(k: nat, i: nat)
    ensures Bit(Pow2(k), i) == (i == k)
  {
    if k == 0 {
      if i > 0 { BitOfZero(i - 1); }
    } else if i > 0 {
      BitOfPow2(k - 1, i - 1);
    }
  }

  /** Complementing a w-bit word flips each of its w digits. */
  lemma {:induction false} BitOfNot(x: nat, w: nat, i: nat)
    requires x < Pow2(w) && i < w
    ensures Bit(Pow2(w) - 1 - x, i) == !Bit(x, i)
  {
    assert (Pow2(w) - 1 - x) / 2 == Pow2(w - 1) - 1 - x / 2;
    if i > 0 { BitOfNot(x / 2, w - 1, i - 1); }
  }

  lemma {:induction false} BitOfMask(k: nat, i: nat)
    ensures Bit(Pow2(k) - 1, i) == (i < k)
  {
    if k == 0 {
      BitOfZero(i);
    } else if i > 0 {
      assert (Pow2(k) - 1) / 2 == Pow2(k - 1) - 1;
      BitOfMask(k - 1, i - 1);
    }
  }

  lemma {:induction false} AndBound(x: nat, y: nat)
    ensures And(x, y) <= x
  {
    if x != 0 && y != 0 { AndBound(x / 2, y / 2); }
  }

  lemma {:induction false} OrBound(x: nat, y: nat, w: nat)
    requires x < Pow2(w) && y < Pow2(w)
    ensures Or(x, y) < Pow2(w)
  {
    if x != 0 && y != 0 { OrBound(x / 2, y / 2, w - 1); }
  }

  lemma {:induction false} Pow2Monotone(a: nat, b: nat)
    requires a <= b
    ensures Pow2(a) <= Pow2(b)
    ensures a < b ==> 2 * Pow2(a) <= Pow2(b)
  {
    if a < b { Pow2Monotone(a, b - 1); }
  }

  lemma Pow2Step8(k: nat)
    ensures Pow2(k + 8) == 256 * Pow2(k)
  {
    assert Pow2(k + 2) == 4 * Pow2(k);
    assert Pow2(k + 4) == 4 * Pow2(k + 2);
    assert Pow2(k + 6) == 4 * Pow2(k + 4);
  }

  lemma {:induction false} PowersAdd(j: nat, k: nat)
    ensures Pow2(j) * Pow2(k) == Pow2(j + k)
  {
    if j > 0 {
      PowersAdd(j - 1, k);
      Doubling(j - 1);
      Doubling(j - 1 + k);
      hide Pow2;
      Twice(Pow2(j - 1), Pow2(k));
    }
  }

  lemma Twice(x: nat, y: nat)
    ensures 2 * x * y == 2 * (x * y)
  {}

  lemma Pow2At6()
    ensures Pow2(6) == 64 && Pow2(1) == 2
  {
    assert Pow2(0) == 1;
    assert Pow2(3) == 8;
  }

  lemma Pow2Zero()
    ensures Pow2(0) == 1
  {}

  lemma Pow2At64()
    ensures Pow2(64) == 0x1_0000_0000_0000_0000
    ensures Pow2(32) == 0x1_0000_0000 && Pow2(16) == 0x1_0000
  {
    hide Pow2;
    Pow2Zero();
    Pow2Step8(0);
    Pow2Step8(8);
    Pow2Step8(16);
    Pow2Step8(24);
    Pow2Step8(32);
    Pow2Step8(40);
    Pow2Step8(48);
    Pow2Step8(56);
  }

  lemma {:induction false} RankOfHalf(x: nat, n: nat)
    ensures Rank(x, n + 1) == x % 2 + Rank(x / 2, n)
  {
    if n > 0 { RankOfHalf(x, n - 1); }
  }

  lemma {:induction false} PopcntIsRank(x: nat, w: nat)
    requires x < Pow2(w)
    ensures Popcnt(x) == Rank(x, w)
  {
    if x == 0 {
      RankOfZeros(x, w, 0);
    } else {
      PopcntIsRank(x / 2, w - 1);
      RankOfHalf(x, w - 1);
    }
  }

  lemma {:induction false} RankOfZeros(x: nat, n: nat, m: nat)
    requires m <= n && (x == 0 || forall i :: m <= i < n ==> !Bit(x, i))
    ensures Rank(x, n) == Rank(x, m)
  {
    if m < n {
      assert !Bit(x, n - 1) by { if x == 0 { BitOfZero(n - 1); } }
      RankOfZeros(x, n - 1, m);
    }
  }

  lemma {:induction false} RankAgree(x: nat, y: nat, n: nat)
    requires forall i :: 0 <= i < n ==> Bit(x, i) == Bit(y, i)
    ensures Rank(x, n) == Rank(y, n)
  {
    if n > 0 { RankAgree(x, y, n - 1); }
  }

  /** A word is determined by its digits. */
  lemma {:induction false} SameDigits(x: nat, y: nat, w: nat)
    requires x < Pow2(w) && y < Pow2(w)
    requires forall i :: 0 <= i < w ==> Bit(x, i) == Bit(y, i)
    ensures x == y
  {
    if w > 0 {
      assert Bit(x, 0) == Bit(y, 0);
      forall i | 0 <= i < w - 1 ensures Bit(x / 2, i) == Bit(y / 2, i) {
        assert Bit(x, i + 1) == Bit(y, i + 1);
      }
      SameDigits(x / 2, y / 2, w - 1);
    }
  }

  // ----- the macros of poptrie.c

  /** VEC_BT(v, i) */
  predicate VecBt(v: u64, i: nat)
    requires i < 64
    ensures VecBt(v, i) == Bit(v, i)
  {
    VecBtIsBit(v, i);
    And(v, Pow2(i)) != 0
  }

  lemma VecBtIsBit(v: u64, i: nat)
    requires i < 64
    ensures (And(v, Pow2(i)) != 0) == Bit(v, i)
  {
    BitOfAnd(v, Pow2(i), i);
    BitOfPow2(i, i);
    BitOfZero(i);
    if And(v, Pow2(i)) != 0 {
      var x := And(v, Pow2(i));
      var j := SomeDigit(x);
      BitOfAnd(v, Pow2(i), j);
      BitOfPow2(i, j);
    }
  }

  lemma {:induction false} SomeDigit(x: nat) returns (j: nat)
    requires x != 0
    ensures Bit(x, j)
  {
    if x % 2 == 1 { j := 0; } else { j := SomeDigit(x / 2); j := j + 1; }
  }

  /** VEC_SET(v, i) */
  function VecSet(v: u64, i: nat): (r: u64)
    requires i < 64
    ensures forall j :: 0 <= j < 64 ==> Bit(r, j) == (j == i || Bit(v, j))
  {
    VecSetDigits(v, i);
    Or(v, Pow2(i))
  }

  lemma VecSetDigits(v: u64, i: nat)
    requires i < 64
    ensures Or(v, Pow2(i)) < 0x1_0000_0000_0000_0000
    ensures forall j :: 0 <= j < 64 ==> Bit(Or(v, Pow2(i)), j) == (j == i || Bit(v, j))
  {
    Pow2At64();
    Pow2Monotone(i, 64);
    OrBound(v, Pow2(i), 64);
    forall j | 0 <= j < 64 ensures Bit(Or(v, Pow2(i)), j) == (j == i || Bit(v, j)) {
      BitOfOr(v, Pow2(i), j);
      BitOfPow2(i, j);
    }
  }

  /** ~((u64)1 << i) */
  function NotBit(i: nat): u64
    requires i < 64
  {
    Pow2At64();
    Pow2Monotone(i, 64);
    WORD64 - 1 - Pow2(i)
  }

  /** VEC_CLEAR(v, i) */
  function VecClear(v: u64, i: nat): (r: u64)
    requires i < 64
    ensures forall j :: 0 <= j < 64 ==> Bit(r, j) == (j != i && Bit(v, j))
  {
    VecClearDigits(v, i);
    And(v, NotBit(i))
  }

  lemma VecClearDigits(v: u64, i: nat)
    requires i < 64
    ensures And(v, NotBit(i)) < 0x1_0000_0000_0000_0000
    ensures forall j :: 0 <= j < 64 ==> Bit(And(v, NotBit(i)), j) == (j != i && Bit(v, j))
  {
    Pow2At64();
    Pow2Monotone(i, 64);
    AndBound(v, NotBit(i));
    forall j | 0 <= j < 64 ensures Bit(And(v, NotBit(i)), j) == (j != i && Bit(v, j)) {
      BitOfAnd(v, NotBit(i), j);
      BitOfNot(Pow2(i), 64, j);
      BitOfPow2(i, j);
    }
  }

  /** POPCNT(v) */
  function PopcntVec(v: u64): (r: nat)
    ensures r == Rank(v, 64)
  {
    Pow2At64();
    PopcntIsRank(v, 64);
    Popcnt(v)
  }

  /** ZEROCNT(v) */
  function ZerocntVec(v: u64): (r: nat)
    ensures r == 64 - Rank(v, 64)
  {
    ZerocntIsComplement(v);
    Popcnt(WORD64 - 1 - v)
  }

  lemma {:induction false} RankOfComplement(x: nat, y: nat, n: nat)
    requires forall i :: 0 <= i < n ==> Bit(x, i) == !Bit(y, i)
    ensures Rank(x, n) == n - Rank(y, n)
  {
    if n > 0 { RankOfComplement(x, y, n - 1); }
  }

  lemma ZerocntIsComplement(v: u64)
    ensures Popcnt(WORD64 - 1 - v) == 64 - Rank(v, 64)
  {
    Pow2At64();
    PopcntIsRank(WORD64 - 1 - v, 64);
    forall i | 0 <= i < 64 ensures Bit(WORD64 - 1 - v, i) == !Bit(v, i) { BitOfNot(v, 64, i); }
    RankOfComplement(WORD64 - 1 - v, v, 64);
  }

  /** ((u64)2 << i) - 1.  For i == 63 the shift wraps to 0 and the subtraction to all ones. */
  function LowMask(i: nat): u64
    requires i < 64
  {
    (2 * Pow2(i) % WORD64 + WORD64 - 1) % WORD64
  }

  lemma LowMaskValue(i: nat)
    requires i < 64
    ensures LowMask(i) == Pow2(i + 1) - 1
  {
    Pow2At64();
    hide Pow2;
    Doubling(i);
    var p := Pow2(i);
    if i < 63 {
      Pow2Monotone(i + 1, 64);
      assert 2 * p < WORD64;
      assert 2 * p % WORD64 == 2 * p;
    } else {
      assert 2 * p == WORD64;
    }
  }

  lemma Doubling(i: nat)
    ensures Pow2(i + 1) == 2 * Pow2(i)
  {}

  /** POPCNT_LS(v, i): the number of one bits at or below position i. */
  function PopcntLs(v: u64, i: nat): (r: nat)
    requires i < 64
    ensures r == Rank(v, i + 1)
  {
    PopcntLsIsRank(v, i);
    Popcnt(And(v, LowMask(i)))
  }

  lemma PopcntLsIsRank(v: u64, i: nat)
    requires i < 64
    ensures Popcnt(And(v, LowMask(i))) == Rank(v, i + 1)
  {
    hide Pow2, And, Rank, LowMask, Popcnt, Bit;
    var m := And(v, LowMask(i));
    LowMaskValue(i);
    Pow2At64();
    AndBound(v, LowMask(i));
    PopcntIsRank(m, 64);
    forall j | 0 <= j < 64 ensures Bit(m, j) == (j <= i && Bit(v, j)) {
      BitOfAnd(v, LowMask(i), j);
      BitOfMask(i + 1, j);
    }
    RankOfZeros(m, 64, i + 1);
    RankAgree(m, v, i + 1);
  }

  /** bsr(x): the index of the highest one bit, 0 for 0. */
  function Bsr(x: nat): nat {
    if x < 2 then 0 else 1 + Bsr(x / 2)
  }

  /** Level k is the least one from 1 on whose blocks hold n entries. */
  ghost predicate Snug(n: nat, k: nat) {
    1 <= k && n <= Pow2(k) && (k == 1 || Pow2(k - 1) < n)
  }

  /** The block level bsr(n - 1) + 1 that the table requests for n entries. */
  function LevelFor(n: nat): (k: nat)
    requires 1 <= n <= 64
    ensures Snug(n, k) && k <= 6
  {
    BsrBound(n - 1, 6);
    Bsr(n - 1) + 1
  }

  /** There is only one such level. */
  lemma SnugUnique(n: nat, j: nat, k: nat)
    requires Snug(n, j) && Snug(n, k)
    ensures j == k
  {
    if j < k { Pow2Monotone(j, k - 1); }
    if k < j { Pow2Monotone(k, j - 1); }
  }

  lemma {:induction false} BsrBound(x: nat, w: nat)
    requires x < Pow2(w) && w >= 1
    ensures x < Pow2(Bsr(x) + 1) && Bsr(x) < w
    ensures x >= 1 ==> Pow2(Bsr(x)) <= x
  {
    if x >= 2 {
      assert w >= 2;
      BsrBound(x / 2, w - 1);
    }
  }
}
