/** The abstract state of the buddy system: a tiling of the arena by aligned blocks.

    `own[x]` is the block that covers unit x.  Everything the allocator promises is a
    statement about such a tiling; the class in Buddy.dfy keeps its heads, links and
    bitmap in step with one. */
module BuddyModel {
  import opened Bits
  import opened Arith

  /** A block of 2^lv units starting at `at`, allocated or on a free list. */
  datatype Block = Block(at: nat, lv: nat, used: bool)

  /** a is a multiple of 2^k. */
  predicate Aligned(a: nat, k: nat) {
    k == 0 || (a % 2 == 0 && Aligned(a / 2, k - 1))
  }

  predicate Cell(own: seq<Block>, x: nat, level: nat)
    requires x < |own|
  {
    var b := own[x];
    && b.lv < level
    && Aligned(b.at, b.lv)
    && b.at <= x < b.at + Pow2(b.lv) <= |own|
    && (forall y :: b.at <= y < b.at + Pow2(b.lv) ==> own[y] == b)
  }

  /** The blocks partition [0, 2^sz) into aligned blocks of level below `level`. */
  ghost predicate Tiling(own: seq<Block>, sz: nat, level: nat) {
    && 1 <= level <= sz
    && |own| == Pow2(sz)
    && forall x :: 0 <= x < |own| ==> Cell(own, x, level)
  }

  /** Start of the aligned region of size 2^(k+1) that holds the block at a. */
  function Parent(a: nat, k: nat): int {
    if Aligned(a, k + 1) then a else a - Pow2(k)
  }

  function Sibling(a: nat, k: nat): int {
    if Aligned(a, k + 1) then a + Pow2(k) else a - Pow2(k)
  }

  /** No two free blocks that could be merged, apart from the one at `hole`. */
  ghost predicate NoTwinsExcept(own: seq<Block>, level: nat, hole: int) {
    forall x :: 0 <= x < |own| && !own[x].used && own[x].at == x && x != hole && own[x].lv + 1 < level
      ==> NotTwin(own, x, hole)
  }

  predicate NotTwin(own: seq<Block>, x: nat, hole: int)
    requires x < |own|
  {
    var s := Sibling(x, own[x].lv);
    0 <= s < |own| && (s == hole || own[s] != Block(s, own[x].lv, false))
  }

  ghost predicate NoTwins(own: seq<Block>, level: nat) {
    NoTwinsExcept(own, level, -1)
  }

  /** The aligned region of 2^k units at a lies in the arena and no unit of it is allocated. */
  ghost predicate FreeRun(own: seq<Block>, a: nat, k: nat) {
    && Aligned(a, k)
    && a + Pow2(k) <= |own|
    && forall y :: a <= y < a + Pow2(k) ==> !own[y].used
  }

  /** The allocated blocks, by address. */
  ghost function LiveOf(own: seq<Block>): map<nat, nat> {
    map a: nat | a < |own| && own[a].used && own[a].at == a :: own[a].lv
  }

  // ----- aligned blocks

  /** Two aligned blocks that share a unit are nested. */
  lemma {:induction false} Laminar(a: nat, j: nat, b: nat, k: nat)
    requires Aligned(a, j) && Aligned(b, k) && j <= k
    requires a < b + Pow2(k) && b < a + Pow2(j)
    ensures b <= a && a + Pow2(j) <= b + Pow2(k)
  {
    if j > 0 { Laminar(a / 2, j - 1, b / 2, k - 1); }
  }

  lemma {:induction false} AlignedDown(a: nat, j: nat, k: nat)
    requires Aligned(a, k) && j <= k
    ensures Aligned(a, j)
  {
    if j > 0 { AlignedDown(a / 2, j - 1, k - 1); }
  }

  /** Of an aligned block and its buddy, the lower one starts the parent region. */
  lemma {:induction false} ParentShape(a: nat, k: nat)
    requires Aligned(a, k)
    ensures !Aligned(a, k + 1) ==> a >= Pow2(k)
    ensures Parent(a, k) >= 0 && Sibling(a, k) >= 0
    ensures Aligned(Parent(a, k), k + 1)
    ensures Aligned(Sibling(a, k), k)
    ensures Sibling(Sibling(a, k), k) == a && Parent(Sibling(a, k), k) == Parent(a, k)
    ensures Parent(a, k) <= a < a + Pow2(k) <= Parent(a, k) + Pow2(k + 1)
    ensures Sibling(a, k) != a
  {
    if k == 0 {
      ParentShape0(a);
    } else {
      var h := EvenHalf(a, k);
      ParentShape(h, k - 1);
      var s, t := Sibling(h, k - 1), Parent(h, k - 1);
      Doubling(k - 1);
      Doubling(k);
      DoubleShape(h, k);
      DoubleShape(s, k);
      DoubleAligned(h, k);
      DoubleAligned(s, k - 1);
      DoubleAligned(t, k);
      hide Pow2, Aligned, Parent, Sibling;
    }
  }

  lemma ParentShape0(a: nat)
    ensures !Aligned(a, 1) ==> a >= Pow2(0)
    ensures Parent(a, 0) >= 0 && Sibling(a, 0) >= 0
    ensures Aligned(Parent(a, 0), 1) && Aligned(Sibling(a, 0), 0)
    ensures Sibling(Sibling(a, 0), 0) == a && Parent(Sibling(a, 0), 0) == Parent(a, 0)
    ensures Parent(a, 0) <= a < a + Pow2(0) <= Parent(a, 0) + Pow2(1)
    ensures Sibling(a, 0) != a
  {
    assert Aligned(a, 1) == (a % 2 == 0);
    if a % 2 == 0 {
      assert !Aligned(a + 1, 1);
    } else {
      assert Aligned(a - 1, 1);
    }
  }

  lemma EvenHalf(a: nat, k: nat) returns (h: nat)
    requires k > 0 && Aligned(a, k)
    ensures a == 2 * h && Aligned(h, k - 1)
  {
    h := a / 2;
  }

  lemma DoubleAligned(x: nat, k: nat)
    ensures Aligned(2 * x, k + 1) <==> Aligned(x, k)
  {}

  lemma DoubleShape(h: nat, k: nat)
    requires k > 0
    ensures Parent(2 * h, k) == 2 * Parent(h, k - 1) && Sibling(2 * h, k) == 2 * Sibling(h, k - 1)
  {
    DoubleAligned(h, k);
    Doubling(k - 1);
  }

  /** An aligned region that starts inside the arena and is no larger ends inside it. */
  lemma {:induction false} RegionFits(a: nat, k: nat, sz: nat)
    requires Aligned(a, k) && k <= sz && a < Pow2(sz)
    ensures a + Pow2(k) <= Pow2(sz)
  {
    if k > 0 { RegionFits(a / 2, k - 1, sz - 1); }
  }

  lemma SiblingFits(a: nat, k: nat, sz: nat)
    requires Aligned(a, k) && k + 1 <= sz && a < Pow2(sz)
    ensures Parent(a, k) + Pow2(k + 1) <= Pow2(sz)
    ensures Sibling(a, k) + Pow2(k) <= Pow2(sz)
  {
    ParentShape(a, k);
    RegionFits(Parent(a, k), k + 1, sz);
    ParentShape(Sibling(a, k), k);
  }

  /** The C expression off / 2^k * 2^k rounds down to a multiple of 2^k. */
  lemma RoundDown(a: nat, k: nat)
    requires Aligned(a, k)
    ensures a / Pow2(k + 1) * Pow2(k + 1) == Parent(a, k)
  {
    hide Pow2, Aligned, Parent, Sibling;
    ParentShape(a, k);
    var s, p := Parent(a, k), Pow2(k + 1);
    AlignedMultiple(s, k + 1);
    Quotient(a, p, s / p, a - s);
  }

  lemma {:induction false} AlignedMultiple(a: nat, k: nat)
    requires Aligned(a, k)
    ensures a == a / Pow2(k) * Pow2(k)
  {
    if k > 0 {
      AlignedMultiple(a / 2, k - 1);
      Doubling(k - 1);
      hide Pow2;
      var p := Pow2(k - 1);
      HalfParts(a, p);
      Reassociate(a / 2 / p, p);
    } else {
      Pow2Zero();
    }
  }

  // ----- tilings

  /** Two covering blocks that meet are the same block. */
  lemma SameBlock(own: seq<Block>, sz: nat, level: nat, x: nat, y: nat)
    requires Tiling(own, sz, level)
    requires x < |own| && y < |own| && own[y].at <= x < own[y].at + Pow2(own[y].lv)
    ensures own[x] == own[y]
  {
    assert Cell(own, y, level);
  }

  /** A block that meets an aligned region of its own size or larger lies within it. */
  lemma BlockWithin(own: seq<Block>, sz: nat, level: nat, a: nat, k: nat, y: nat)
    requires Tiling(own, sz, level) && Aligned(a, k) && a + Pow2(k) <= |own|
    requires a <= y < a + Pow2(k) && own[y].lv <= k
    ensures a <= own[y].at && own[y].at + Pow2(own[y].lv) <= a + Pow2(k)
  {
    assert Cell(own, y, level);
    Laminar(own[y].at, own[y].lv, a, k);
  }

  /** A larger block that meets an aligned region covers all of it. */
  lemma BlockCovers(own: seq<Block>, sz: nat, level: nat, a: nat, k: nat, y: nat)
    requires Tiling(own, sz, level) && Aligned(a, k) && a + Pow2(k) <= |own|
    requires a <= y < a + Pow2(k) && own[y].lv >= k
    ensures own[y].at <= a && a + Pow2(k) <= own[y].at + Pow2(own[y].lv)
    ensures own[a] == own[y]
  {
    assert Cell(own, y, level);
    Laminar(a, k, own[y].at, own[y].lv);
  }

  lemma HalfRun(own: seq<Block>, a: nat, k: nat)
    requires k > 0 && FreeRun(own, a, k)
    ensures FreeRun(own, a, k - 1) && FreeRun(own, a + Pow2(k - 1), k - 1)
    ensures Sibling(a, k - 1) == a + Pow2(k - 1)
  {
    AlignedDown(a, k - 1, k);
    ParentShape(a, k - 1);
  }

  /** Full coalescing: a wholly free aligned region lies inside a single free block. */
  lemma {:induction false} Coalesced(own: seq<Block>, sz: nat, level: nat, hole: int, a: nat, k: nat)
    requires Tiling(own, sz, level) && NoTwinsExcept(own, level, hole)
    requires k < level && FreeRun(own, a, k)
    requires hole < a || a + Pow2(k) <= hole
    decreases k
    ensures own[a].lv >= k
    ensures forall y :: a <= y < a + Pow2(k) ==> own[y] == own[a]
  {
    assert Cell(own, a, level);
    if k > 0 {
      var h := a + Pow2(k - 1);
      HalfRun(own, a, k);
      Coalesced(own, sz, level, hole, a, k - 1);
      Coalesced(own, sz, level, hole, h, k - 1);
      assert Cell(own, h, level);
      if own[a].lv < k {
        BlockWithin(own, sz, level, a, k - 1, a);
        assert own[a] == Block(a, k - 1, false);
        assert NotTwin(own, a, hole);
        if own[h].lv >= k {
          BlockCovers(own, sz, level, a, k, h);
        } else {
          BlockWithin(own, sz, level, h, k - 1, h);
        }
      }
    }
    BlockCovers(own, sz, level, a, k, a);
  }

  /** Between operations the whole tiling, free blocks included, is a function of the
      allocated blocks: the allocator's state does not depend on its history. */
  lemma HistoryIndependent(own1: seq<Block>, own2: seq<Block>, sz: nat, level: nat)
    requires Tiling(own1, sz, level) && NoTwins(own1, level)
    requires Tiling(own2, sz, level) && NoTwins(own2, level)
    requires LiveOf(own1) == LiveOf(own2)
    ensures own1 == own2
  {
    UsedAgrees(own1, own2, sz, level);
    UsedAgrees(own2, own1, sz, level);
    forall x | 0 <= x < |own1| ensures own1[x] == own2[x] {
      if !own1[x].used {
        FreeNotSmaller(own1, own2, sz, level, x);
        FreeNotSmaller(own2, own1, sz, level, x);
        assert Cell(own1, x, level) && Cell(own2, x, level);
        Laminar(own1[x].at, own1[x].lv, own2[x].at, own2[x].lv);
      }
    }
  }

  lemma UsedAgrees(own1: seq<Block>, own2: seq<Block>, sz: nat, level: nat)
    requires Tiling(own1, sz, level) && Tiling(own2, sz, level)
    requires LiveOf(own1) == LiveOf(own2)
    ensures forall x :: 0 <= x < |own1| && own1[x].used ==> own2[x] == own1[x]
  {
    forall x | 0 <= x < |own1| && own1[x].used ensures own2[x] == own1[x] {
      assert Cell(own1, x, level);
      var a := own1[x].at;
      assert own1[a] == own1[x];
      assert a in LiveOf(own1);
      assert a in LiveOf(own2) && LiveOf(own2)[a] == own1[x].lv;
      assert Cell(own2, a, level);
    }
  }

  lemma FreeNotSmaller(own1: seq<Block>, own2: seq<Block>, sz: nat, level: nat, x: nat)
    requires Tiling(own1, sz, level)
    requires Tiling(own2, sz, level) && NoTwins(own2, level)
    requires forall y :: 0 <= y < |own2| && own2[y].used ==> own1[y] == own2[y]
    requires x < |own1| && !own1[x].used
    ensures own2[x].lv >= own1[x].lv
  {
    assert Cell(own1, x, level);
    var b := own1[x];
    assert FreeRun(own2, b.at, b.lv);
    Coalesced(own2, sz, level, -1, b.at, b.lv);
  }

  // ----- repainting a region of the tiling

  function Paint(own: seq<Block>, b: Block): (r: seq<Block>)
    ensures |r| == |own|
    ensures forall i :: 0 <= i < |own| ==> r[i] == if b.at <= i < b.at + Pow2(b.lv) then b else own[i]
  {
    seq(|own|, i requires 0 <= i < |own| => if b.at <= i < b.at + Pow2(b.lv) then b else own[i])
  }

  /** Replacing the blocks inside an aligned region by one block leaves a tiling. */
  lemma PaintUp(own: seq<Block>, sz: nat, level: nat, b: Block)
    requires Tiling(own, sz, level)
    requires b.lv < level && Aligned(b.at, b.lv) && b.at + Pow2(b.lv) <= |own|
    requires forall y :: b.at <= y < b.at + Pow2(b.lv) ==> own[y].lv <= b.lv
    ensures Tiling(Paint(own, b), sz, level)
  {
    var p := Paint(own, b);
    forall x | 0 <= x < |p| ensures Cell(p, x, level) {
      assert Cell(own, x, level);
      if !(b.at <= x < b.at + Pow2(b.lv)) {
        var c := own[x];
        forall y | c.at <= y < c.at + Pow2(c.lv) ensures p[y] == c {
          assert own[y] == c;
          if b.at <= y < b.at + Pow2(b.lv) {
            BlockWithin(own, sz, level, b.at, b.lv, y);
            assert false;
          }
        }
      }
    }
  }

  lemma UpperHalf(a: nat, k: nat)
    requires Aligned(a, k + 1) && Aligned(a, k)
    ensures Aligned(a + Pow2(k), k)
  {
    ParentShape(a, k);
  }

  /** Splitting a block into its two halves leaves a tiling. */
  lemma PaintSplit(own: seq<Block>, sz: nat, level: nat, a: nat, k: nat)
    requires Tiling(own, sz, level) && k + 1 < level
    requires a < |own| && own[a] == Block(a, k + 1, false)
    ensures a + Pow2(k + 1) <= |own|
    ensures Tiling(Paint(Paint(own, Block(a, k, false)), Block(a + Pow2(k), k, false)), sz, level)
  {
    hide Aligned, Pow2, Parent, Sibling;
    assert Cell(own, a, level);
    Doubling(k);
    var lo, hi := Block(a, k, false), Block(a + Pow2(k), k, false);
    var p := Paint(Paint(own, lo), hi);
    AlignedDown(a, k, k + 1);
    UpperHalf(a, k);
    forall x | 0 <= x < |p| ensures Cell(p, x, level) {
      assert Cell(own, x, level);
      if !(a <= x < a + Pow2(k + 1)) {
        var c := own[x];
        forall y | c.at <= y < c.at + Pow2(c.lv) ensures p[y] == c {
          assert own[y] == c;
        }
      }
    }
  }

  // ----- the same facts in terms of the allocated blocks only

  /** The aligned region of 2^k units at a lies in the arena and meets no allocated block. */
  ghost predicate Unclaimed(live: map<nat, nat>, total: nat, a: nat, k: nat) {
    && Aligned(a, k)
    && a + Pow2(k) <= total
    && forall c :: c in live ==> c + Pow2(live[c]) <= a || a + Pow2(k) <= c
  }

  lemma RunIsUnclaimed(own: seq<Block>, sz: nat, level: nat, a: nat, k: nat)
    requires Tiling(own, sz, level)
    ensures FreeRun(own, a, k) <==> Unclaimed(LiveOf(own), |own|, a, k)
  {
    var live := LiveOf(own);
    if FreeRun(own, a, k) {
      forall c | c in live ensures c + Pow2(live[c]) <= a || a + Pow2(k) <= c {
        assert Cell(own, c, level);
        var y := if c < a then a else c;
        assert c <= y < c + Pow2(live[c]) ==> own[y].used;
      }
    }
    if Unclaimed(live, |own|, a, k) {
      forall y | a <= y < a + Pow2(k) ensures !own[y].used {
        assert Cell(own, y, level);
        var c := own[y].at;
        assert own[c] == own[y];
        assert own[y].used ==> c in live;
      }
    }
  }

  /** Live blocks lie in the arena and are pairwise disjoint. */
  lemma LiveDisjoint(own: seq<Block>, sz: nat, level: nat, a: nat, c: nat)
    requires Tiling(own, sz, level) && a in LiveOf(own) && c in LiveOf(own) && a != c
    ensures a + Pow2(own[a].lv) <= |own|
    ensures a + Pow2(own[a].lv) <= c || c + Pow2(own[c].lv) <= a
  {
    assert Cell(own, a, level) && Cell(own, c, level);
  }

  /** Live blocks lie in the arena and do not overlap. */
  ghost predicate Arena(live: map<nat, nat>, total: nat) {
    && (forall a :: a in live ==> a + Pow2(live[a]) <= total)
    && (forall a, c :: a in live && c in live && a != c ==> a + Pow2(live[a]) <= c || c + Pow2(live[c]) <= a)
  }

  // ----- capacity

  /** Every allocated block is an aligned one of at most 64 units. */
  ghost predicate Modest(live: map<nat, nat>) {
    forall a :: a in live ==> live[a] <= 6 && Aligned(a, live[a])
  }

  lemma {:induction false} SpareNumber(S: set<nat>, n: nat) returns (r: nat)
    requires |S| < n
    ensures r < n && r !in S
  {
    if n - 1 !in S { return n - 1; }
    r := SpareNumber(S - {n - 1}, n - 1);
  }

  lemma {:induction false} RegionsOf(live: map<nat, nat>) returns (S: set<nat>)
    ensures |S| <= |live| && forall a :: a in live ==> a / 64 in S
    decreases |live|
  {
    S := {};
    if live != map[] {
      var a :| a in live;
      S := RegionsOf(live - {a});
      S := S + {a / 64};
    }
  }

  /** While fewer blocks are allocated than there are regions of 64 units, some region is free: every
      request of up to 64 units can be met. */
  lemma RoomLeft(live: map<nat, nat>, total: nat, k: nat) returns (a: nat)
    requires Modest(live) && 64 * (|live| + 1) < total && k <= 6
    ensures Unclaimed(live, total, a, k)
  {
    var S := RegionsOf(live);
    var r := SpareNumber(S, total / 64);
    a := 64 * r;
    Pow2At6();
    RegionAligned(r);
    AlignedDown(a, k, 6);
    Pow2Monotone(k, 6);
    forall c | c in live ensures c + Pow2(live[c]) <= a || a + Pow2(k) <= c {
      assert c / 64 in S;
      if c < a + 64 && a < c + Pow2(live[c]) { Laminar(c, live[c], a, 6); }
    }
  }

  lemma RegionAligned(r: nat)
    ensures Aligned(64 * r, 6)
  {
    DoubleAligned(32 * r, 5);
    DoubleAligned(16 * r, 4);
    DoubleAligned(8 * r, 3);
    DoubleAligned(4 * r, 2);
    DoubleAligned(2 * r, 1);
    DoubleAligned(r, 0);
  }
}
