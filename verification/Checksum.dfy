/** The one's-complement checksum of src/ip.c and the header refresh of ipv4_forward
    (RFC 1071 section 1, RFC 791 section 3.1). */
module Checksum {
  import opened Arith
  import opened Bits

  function BigEndian(high: nat, low: nat): nat {
    high * 0x100 + low
  }

  /** ntohs of the i-th word of a buffer. */
  function Word(s: seq<u8>, i: nat): (w: u16)
    requires 2 * i + 1 < |s|
    ensures w / 0x100 == s[2 * i] && w % 0x100 == s[2 * i + 1]
  {
    BigEndian(s[2 * i], s[2 * i + 1])
  }

  /** The sum of the first n words. */
  function WordSum(s: seq<u8>, n: nat): nat
    requires 2 * n <= |s|
  {
    if n == 0 then 0 else WordSum(s, n - 1) + Word(s, n - 1)
  }

  /** 65537 words are the most whose sum fits into 32 bits. */
  lemma {:induction false} SumFits(s: seq<u8>, n: nat)
    requires 2 * n <= |s|
    ensures WordSum(s, n) <= 0xffff * n
    ensures n <= 0x1_0001 ==> WordSum(s, n) < 0x1_0000_0000
  {
    if n > 0 { SumFits(s, n - 1); }
  }

  /** (sum & 0xffff) + (sum >> 16) */
  function Fold(sum: u32): u32 {
    sum % 0x1_0000 + sum / 0x1_0000
  }

  /** Two folds leave 16 bits, keep the remainder by 65535, and give 0 only for 0. */
  lemma TwoFolds(sum: u32)
    ensures var f := Fold(Fold(sum)); f <= 0xffff && f % 0xffff == sum % 0xffff && (f == 0 <==> sum == 0)
  {
    FoldStep(sum);
    FoldStep(Fold(sum));
  }

  lemma FoldStep(sum: u32)
    ensures Fold(sum) % 0xffff == sum % 0xffff && (Fold(sum) == 0 <==> sum == 0)
    ensures Fold(sum) <= 0x1_fffe && (sum <= 0x1_fffe ==> Fold(sum) <= 0xffff)
  {
    var q, r := sum / 0x1_0000, sum % 0x1_0000;
    assert sum == 0xffff * q + (q + r);
  }

  /** The words and, for an odd size, the last byte as it is. */
  function Sum32(s: seq<u8>, size: nat): u32
    requires size <= |s| && size <= 2 * 0x1_0001
  {
    SumFits(s, size / 2);
    if size % 2 == 0 then WordSum(s, size / 2) else WordSum(s, size / 2) + s[size - 1]
  }

  /** The checksum of the first size bytes, in host byte order. */
  function Sum16(s: seq<u8>, size: nat): (c: u16)
    requires size <= |s| && size <= 2 * 0x1_0001
  {
    TwoFolds(Sum32(s, size));
    0xffff - Fold(Fold(Sum32(s, size)))
  }

  /** The bytes weighed by their place in a word, one by one: what the words add up to. */
  function Weight(s: seq<u8>, m: nat): nat
    requires m <= |s|
  {
    if m == 0 then 0 else Weight(s, m - 1) + if m % 2 == 1 then (s[m - 1] as nat) * 0x100 else s[m - 1]
  }

  lemma {:induction false} WordsWeigh(s: seq<u8>, n: nat)
    requires 2 * n <= |s|
    ensures WordSum(s, n) == Weight(s, 2 * n)
  {
    hide Word;
    if n > 0 {
      WordsWeigh(s, n - 1);
      WordIs(s, n - 1);
      TwoBytes(s, n - 1);
    }
  }

  lemma TwoBytes(s: seq<u8>, n: nat)
    requires 2 * n + 1 < |s|
    ensures Weight(s, 2 * (n + 1)) == Weight(s, 2 * n) + BigEndian(s[2 * n], s[2 * n + 1])
  {
    assert Weight(s, 2 * n + 2) == Weight(s, 2 * n + 1) + s[2 * n + 1];
  }

  /** The checksum is the number that the bytes lack to a multiple of 65535; of the two numbers 0 and
      65535 it is 65535 for an all-zero buffer and 0 for every other. */
  lemma ChecksumIs(s: seq<u8>, size: nat)
    requires size <= |s| && size % 2 == 0 && size <= 2 * 0x1_0001
    ensures (Sum16(s, size) + Weight(s, size)) % 0xffff == 0
    ensures Sum16(s, size) == 0xffff <==> Weight(s, size) == 0
  {
    hide WordSum, Weight, Fold;
    var n := size / 2;
    WordsWeigh(s, n);
    SumFits(s, n);
    TwoFolds(WordSum(s, n));
    Complement(WordSum(s, n), Fold(Fold(WordSum(s, n))));
  }

  lemma SumNone(s: seq<u8>)
    ensures WordSum(s, 0) == 0
  {}

  lemma SumNext(s: seq<u8>, n: nat)
    requires 2 * n + 1 < |s|
    ensures WordSum(s, n + 1) == WordSum(s, n) + Word(s, n)
  {}

  /** cksum: the accumulation loop in 32 bits, two folds, and the complement in 16 bits.  An odd
      last byte is added as it is. */
  method Cksum(buf: array<u8>, size: nat) returns (c: u16)
    requires size <= buf.Length
    ensures size <= 2 * 0x1_0001 ==> c == Sum16(buf[..], size)
  {
    hide WordSum, Fold, BigEndian, Word;
    SumNone(buf[..]);
    var sum: u32, ptr, left := 0, 0, size;
    while left > 1
      invariant left + 2 * ptr == size
      invariant ptr <= 0x1_0001 ==> sum == WordSum(buf[..], ptr)
    {
      SumFits(buf[..], ptr + 1);
      SumNext(buf[..], ptr);
      WordIs(buf[..], ptr);
      NoWrap(sum + BigEndian(buf[2 * ptr], buf[2 * ptr + 1]));
      sum := (sum + BigEndian(buf[2 * ptr], buf[2 * ptr + 1])) % 0x1_0000_0000;
      left := left - 2;
      ptr := ptr + 1;
    }
    SumFits(buf[..], ptr);
    if left > 0 {
      NoWrap(sum + buf[2 * ptr]);
      sum := (sum + buf[2 * ptr]) % 0x1_0000_0000;
    }
    TwoFolds(sum);
    sum := Fold(sum);
    sum := Fold(sum);
    LowHalf(sum);
    c := (0xffff_ffff - sum) % 0x1_0000;
  }

  /** RFC 1071 section 1 pads an odd buffer with a zero byte, so that the last byte is the high half of a
      word.  The checksum is the same only when that byte is zero. */
  lemma OddSize(s: seq<u8>, size: nat)
    requires size <= |s| && size % 2 == 1 && size <= 2 * 0x1_0001
    ensures Sum16(s, size) == Sum16(s[..size] + [0], size + 1) <==> s[size - 1] == 0
  {
    hide WordSum, Fold, Word;
    var n, t, b := size / 2, s[..size] + [0], s[size - 1];
    SamePrefix(s, t, n);
    SumNext(t, n);
    assert Word(t, n) == (b as nat) * 0x100 by { assert t[2 * n] == b && t[2 * n + 1] == 0; }
    var x, y := Sum32(s, size), Sum32(t, size + 1);
    TwoFolds(x);
    TwoFolds(y);
    assert x == WordSum(s, n) + b && y == WordSum(s, n) + (b as nat) * 0x100;
    if b != 0 { HighOrLow(WordSum(s, n), b); }
  }

  lemma HighOrLow(x: nat, b: u8)
    requires b != 0
    ensures (x + b) % 0xffff != (x + (b as nat) * 0x100) % 0xffff
  {
    var d := (b as nat) * 0xff;
    assert x + (b as nat) * 0x100 == x + b + d && 0 < d < 0xffff;
    var p, q := (x + b) / 0xffff, (x + b + d) / 0xffff;
    if (x + b) % 0xffff == (x + b + d) % 0xffff { SmallMultiple(q - p, 0xffff); }
  }

  lemma {:induction false} SamePrefix(s: seq<u8>, t: seq<u8>, n: nat)
    requires 2 * n <= |s| && 2 * n <= |t| && forall i :: 0 <= i < 2 * n ==> s[i] == t[i]
    ensures WordSum(s, n) == WordSum(t, n)
  {
    if n > 0 { SamePrefix(s, t, n - 1); }
  }

  lemma WordIs(s: seq<u8>, i: nat)
    requires 2 * i + 1 < |s|
    ensures Word(s, i) == BigEndian(s[2 * i], s[2 * i + 1])
  {}

  lemma NoWrap(x: nat)
    ensures x % 0x1_0000_0000 < 0x1_0000_0000
    ensures x < 0x1_0000_0000 ==> x % 0x1_0000_0000 == x
  {}

  lemma LowHalf(sum: u32)
    requires sum <= 0xffff
    ensures (0xffff_ffff - sum) % 0x1_0000 == 0xffff - sum
  {}

  /** A buffer checks out exactly when its bytes weigh a positive multiple of 65535. */
  lemma ChecksOut(s: seq<u8>, size: nat)
    requires size <= |s| && size % 2 == 0 && size <= 2 * 0x1_0001
    ensures Sum16(s, size) == 0 <==> Weight(s, size) > 0 && Weight(s, size) % 0xffff == 0
    ensures WordSum(s, size / 2) == Weight(s, size)
  {
    hide WordSum, Weight, Fold;
    WordsWeigh(s, size / 2);
    SumFits(s, size / 2);
    TwoFolds(WordSum(s, size / 2));
  }

  /** One word changed changes the sum by the difference. */
  lemma {:induction false} SumChange(s: seq<u8>, t: seq<u8>, k: nat, n: nat)
    requires |s| == |t| && 2 * n <= |s| && 2 * k + 1 < |s|
    requires forall i :: 0 <= i < |s| && i != 2 * k && i != 2 * k + 1 ==> s[i] == t[i]
    ensures WordSum(t, n) == if k < n then WordSum(s, n) + Word(t, k) - Word(s, k) else WordSum(s, n)
  {
    if n > 0 { SumChange(s, t, k, n - 1); }
  }

  /** Storing the checksum into a zero field makes the buffer check out. */
  lemma RoundTrip(s: seq<u8>, t: seq<u8>, k: nat, size: nat)
    requires |s| == |t| && size <= |s| && size % 2 == 0 && size <= 2 * 0x1_0001 && 2 * k + 1 < size
    requires forall i :: 0 <= i < |s| && i != 2 * k && i != 2 * k + 1 ==> s[i] == t[i]
    requires Word(s, k) == 0 && Word(t, k) == Sum16(s, size)
    ensures Sum16(t, size) == 0
  {
    hide WordSum, Word, Fold;
    var n := size / 2;
    SumChange(s, t, k, n);
    SumFits(s, n);
    TwoFolds(WordSum(s, n));
    ChecksOut(t, size);
    Complement(WordSum(s, n), Fold(Fold(WordSum(s, n))));
  }

  lemma Complement(x: nat, f: nat)
    requires f <= 0xffff && f % 0xffff == x % 0xffff
    ensures (x + (0xffff - f)) % 0xffff == 0
  {
    var q, p := x / 0xffff, f / 0xffff;
    assert x + (0xffff - f) == 0xffff * (q - p + 1);
    Multiple(0xffff, q - p + 1);
  }

  lemma Multiple(d: nat, q: int)
    requires d > 0
    ensures d * q % d == 0
  {
    var m := d * q;
    assert m == m / d * d + m % d;
    Distribute(q, m / d, d);
    SmallMultiple(q - m / d, d);
  }

  /** A checksummed buffer in which one word was altered, other than between 0 and 65535, no
      longer checks out. */
  lemma OneWordDetected(s: seq<u8>, t: seq<u8>, k: nat, size: nat)
    requires |s| == |t| && size <= |s| && size % 2 == 0 && size <= 2 * 0x1_0001 && 2 * k + 1 < size
    requires forall i :: 0 <= i < |s| && i != 2 * k && i != 2 * k + 1 ==> s[i] == t[i]
    requires Sum16(s, size) == 0
    ensures Sum16(t, size) == 0 ==> Word(s, k) % 0xffff == Word(t, k) % 0xffff
  {
    hide WordSum, Word, Sum16;
    var n := size / 2;
    SumChange(s, t, k, n);
    ChecksOut(s, size);
    ChecksOut(t, size);
    var x, y := WordSum(s, n), WordSum(t, n);
    if Sum16(t, size) == 0 { SameRemainder(x, y, Word(s, k), Word(t, k)); }
  }

  /** Any one altered byte is detected. */
  lemma OneByteDetected(s: seq<u8>, t: seq<u8>, i: nat, size: nat)
    requires |s| == |t| && size <= |s| && size % 2 == 0 && size <= 2 * 0x1_0001 && i < size && s[i] != t[i]
    requires forall j :: 0 <= j < |s| && j != i ==> s[j] == t[j]
    requires Sum16(s, size) == 0
    ensures Sum16(t, size) != 0
  {
    hide WordSum, Sum16, BigEndian;
    OneWordDetected(s, t, i / 2, size);
    var a, b := Word(s, i / 2), Word(t, i / 2);
    assert i == 2 * (i / 2) || i == 2 * (i / 2) + 1;
    OneByteApart(a, b);
  }

  /** Words that differ in one byte do not differ by 65535. */
  lemma OneByteApart(a: u16, b: u16)
    requires a != b && (a / 0x100 == b / 0x100 || a % 0x100 == b % 0x100)
    ensures a % 0xffff != b % 0xffff
  {}

  lemma SameRemainder(x: nat, y: nat, a: nat, b: nat)
    requires x % 0xffff == 0 && y % 0xffff == 0 && y == x + b - a
    ensures a % 0xffff == b % 0xffff
  {
    var q := y / 0xffff - x / 0xffff;
    assert b == a + 0xffff * q;
    assert b - 0xffff * (b / 0xffff) == a - 0xffff * (b / 0xffff - q);
  }

  // ----- the header refresh

  /** ip_hl * 4: the low half of the first byte counts words of four bytes. */
  function HeaderLength(s: seq<u8>): (n: nat)
    requires |s| > 0
    ensures n % 4 == 0 && n / 4 < 16 && (s[0] - n / 4) % 16 == 0
  {
    s[0] % 16 * 4
  }

  /** ip_ttl-- in eight bits. */
  function Decremented(ttl: u8): (r: u8)
    ensures (r + 1) % 0x100 == ttl
  {
    if ttl == 0 then 0xff else ttl - 1
  }

  /** The lines of ipv4_forward that take one from the TTL and refresh the header checksum. */
  method Refresh(iph: array<u8>)
    requires iph.Length > 0 && 20 <= HeaderLength(iph[..]) <= iph.Length
    modifies iph
    ensures iph[8] == Decremented(old(iph[8]))
    ensures forall i :: 0 <= i < iph.Length && i != 8 && i != 10 && i != 11 ==> iph[i] == old(iph[i])
    ensures Sum16(iph[..], HeaderLength(old(iph[..]))) == 0
    ensures Word(iph[..], 5) == Sum16(iph[..][10 := 0][11 := 0], HeaderLength(old(iph[..])))
  {
    hide Sum16, WordSum, Fold, Word;
    ghost var s0: seq<u8> := iph[..];
    iph[8] := Decremented(iph[8]);
    iph[10], iph[11] := 0, 0;
    ghost var s: seq<u8> := iph[..];
    assert s == s0[8 := Decremented(s0[8])][10 := 0][11 := 0];
    var size := iph[0] % 16 * 4;
    var c := Cksum(iph, size);
    var high: u8, low: u8 := c / 0x100, c % 0x100;
    iph[10], iph[11] := high, low;
    assert iph[..] == s[10 := high][11 := low];
    StoredSum(s, c, size);
    assert iph[..][10 := 0][11 := 0] == s;
  }

  lemma SplitWord(c: u16)
    ensures BigEndian(c / 0x100, c % 0x100) == c && c / 0x100 < 0x100
  {}

  /** Storing the checksum of a header into its field. */
  lemma StoredSum(s: seq<u8>, c: u16, size: nat)
    requires 12 <= size <= |s| && size % 2 == 0 && size <= 2 * 0x1_0001 && s[10] == 0 && s[11] == 0
    requires c == Sum16(s, size)
    ensures c / 0x100 < 0x100
    ensures var high: u8, low: u8 := c / 0x100, c % 0x100;
      Sum16(s[10 := high][11 := low], size) == 0 && Word(s[10 := high][11 := low], 5) == c
  {
    hide Sum16, WordSum, Fold, BigEndian;
    SplitWord(c);
    var high: u8, low: u8 := c / 0x100, c % 0x100;
    var t := s[10 := high][11 := low];
    ZeroWord();
    assert Word(t, 5) == BigEndian(t[10], t[11]) && Word(s, 5) == BigEndian(s[10], s[11]);
    RoundTrip(s, t, 5, size);
  }

  lemma ZeroWord()
    ensures BigEndian(0, 0) == 0
  {}
}
