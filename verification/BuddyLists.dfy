/** The words the buddy allocator stores (heads, links, bitmap) against the tiling they
    represent, and the effect of each list operation on that tiling. */
module BuddyLists {
  import opened Bits
  import opened BuddyModel
  import opened FreeList

  // ----- the bitmap

  predicate TailBit(b: seq<u8>, x: nat)
    requires x / 8 < |b|
  {
    Bit(b[x / 8], x % 8)
  }

  predicate ByteTest(v: u8, i: nat)
    requires i < 8
    ensures ByteTest(v, i) == Bit(v, i)
  {
    VecBtIsBit(v, i);
    And(v, Pow2(i)) != 0
  }

  function ByteSet(v: u8, i: nat): (r: u8)
    requires i < 8
    ensures forall j :: 0 <= j < 8 ==> Bit(r, j) == (j == i || Bit(v, j))
  {
    Pow2Monotone(i, 7);
    assert Pow2(7) == 128;
    OrBound(v, Pow2(i), 8);
    VecSetDigits(v, i);
    Or(v, Pow2(i))
  }

  function ByteClear(v: u8, i: nat): (r: u8)
    requires i < 8
    ensures forall j :: 0 <= j < 8 ==> Bit(r, j) == (j != i && Bit(v, j))
  {
    AndBound(v, NotBit(i));
    VecClearDigits(v, i);
    And(v, NotBit(i))
  }

  lemma BitmapSet(b: seq<u8>, x: nat, y: nat)
    requires x / 8 < |b| && y / 8 < |b|
    ensures TailBit(b[x / 8 := ByteSet(b[x / 8], x % 8)], y) == (y == x || TailBit(b, y))
  {}

  lemma BitmapClear(b: seq<u8>, x: nat, y: nat)
    requires x / 8 < |b| && y / 8 < |b|
    ensures TailBit(b[x / 8 := ByteClear(b[x / 8], x % 8)], y) == (y != x && TailBit(b, y))
  {}

  // ----- the concrete words against the tiling

  function TailOf(k: Block): nat {
    k.at + Pow2(k.lv) - 1
  }

  /** The bitmap marks exactly the last unit of every allocated block. */
  ghost predicate Tails(b: seq<u8>, own: seq<Block>) {
    && |b| == (|own| + 7) / 8
    && forall x :: 0 <= x < |own| ==> TailBit(b, x) == (own[x].used && x == TailOf(own[x]))
  }

  ghost predicate Lists(L: seq<nat>, own: seq<Block>, k: nat) {
    && Distinct(L)
    && (forall i :: 0 <= i < |L| ==> L[i] < |own| && own[L[i]] == Block(L[i], k, false))
    && (forall x :: 0 <= x < |own| && own[x] == Block(x, k, false) ==> x in L)
  }

  /** The free list of every level holds exactly the free blocks of that level. */
  ghost predicate AllLists(lists: seq<seq<nat>>, own: seq<Block>, level: nat) {
    && |lists| == level
    && forall k :: 0 <= k < level ==> Lists(lists[k], own, k)
  }

  ghost predicate AllThreaded(heads: seq<nat>, links: seq<nat>, lists: seq<seq<nat>>) {
    && |heads| == |lists|
    && forall k :: 0 <= k < |lists| ==> Threaded(heads[k], links, lists[k])
  }

  /** Rewriting one head and the links of blocks that only its list owns. */
  lemma Rethread(heads: seq<nat>, links: seq<nat>, lists: seq<seq<nat>>,
                 k: nat, head: nat, links': seq<nat>, L: seq<nat>)
    requires AllThreaded(heads, links, lists) && k < |lists|
    requires Threaded(head, links', L) && |links'| == |links|
    requires forall j, x :: 0 <= j < |lists| && j != k && x in lists[j] && x < |links| ==> links'[x] == links[x]
    ensures AllThreaded(heads[k := head], links', lists[k := L])
  {
    var heads', lists' := heads[k := head], lists[k := L];
    forall j | 0 <= j < |lists| ensures Threaded(heads'[j], links', lists'[j]) {
      if j != k { assert Threaded(heads[j], links, lists[j]); }
    }
  }

  lemma NotListed(lists: seq<seq<nat>>, own: seq<Block>, level: nat, x: nat, k: nat)
    requires AllLists(lists, own, level) && k < level
    requires x < |own| && own[x] != Block(x, k, false)
    ensures x !in lists[k]
  {
    assert Lists(lists[k], own, k);
  }

  lemma NoBlockHere(b: seq<u8>, own: seq<Block>, sz: nat, level: nat, off: nat, lv: nat, y: nat)
    requires Tiling(own, sz, level) && Tails(b, own)
    requires lv + 1 < level && off < |own| && own[off] == Block(off, lv, false)
    requires Parent(off, lv) >= 0 && Parent(off, lv) + Pow2(lv + 1) <= |own|
    requires Parent(off, lv) <= y < Parent(off, lv) + Pow2(lv + 1)
    requires forall x :: Parent(off, lv) <= x < Parent(off, lv) + Pow2(lv + 1) ==> !TailBit(b, x)
    ensures !own[y].used
  {
    hide TailBit, Parent, Sibling, Aligned, Pow2;
    assert Cell(own, off, level) && Cell(own, y, level);
    var s := Parent(off, lv);
    ParentShape(off, lv);
    if own[y].lv > lv {
      BlockCovers(own, sz, level, s, lv + 1, y);
    } else {
      BlockWithin(own, sz, level, s, lv + 1, y);
      var z := TailOf(own[y]);
      SameBlock(own, sz, level, z, y);
    }
  }

  /** A run of bits without a tail, next to a free block, is the free buddy of that block. */
  lemma BuddyIsFree(b: seq<u8>, own: seq<Block>, sz: nat, level: nat, off: nat, lv: nat)
    requires Tiling(own, sz, level) && Tails(b, own) && NoTwinsExcept(own, level, off)
    requires lv + 1 < level && off < |own| && own[off] == Block(off, lv, false)
    requires Parent(off, lv) >= 0 && Parent(off, lv) + Pow2(lv + 1) <= |own|
    requires forall x :: Parent(off, lv) <= x < Parent(off, lv) + Pow2(lv + 1) ==> !TailBit(b, x)
    ensures 0 <= Sibling(off, lv) < |own| && own[Sibling(off, lv)] == Block(Sibling(off, lv), lv, false)
  {
    hide TailBit, Parent, Sibling, Aligned, NoTwinsExcept, Pow2;
    assert Cell(own, off, level);
    var s, t := Parent(off, lv), Sibling(off, lv);
    ParentShape(off, lv);
    ParentShape(t, lv);
    Doubling(lv);
    SiblingSides(off, lv);
    forall y | s <= y < s + Pow2(lv + 1) ensures !own[y].used {
      NoBlockHere(b, own, sz, level, off, lv, y);
    }
    assert FreeRun(own, t, lv);
    Coalesced(own, sz, level, off, t, lv);
    if own[t].lv > lv {
      assert Cell(own, t, level);
      BlockCovers(own, sz, level, s, lv + 1, t);
    } else {
      BlockWithin(own, sz, level, t, lv, t);
    }
  }

  /** A tail bit within the parent region rules out a free buddy. */
  lemma BuddyNotFree(b: seq<u8>, own: seq<Block>, sz: nat, level: nat, off: nat, lv: nat, x: nat)
    requires Tiling(own, sz, level) && Tails(b, own) && NoTwinsExcept(own, level, off)
    requires lv + 1 < level && off < |own| && own[off] == Block(off, lv, false)
    requires Parent(off, lv) <= x < Parent(off, lv) + Pow2(lv + 1) && x < |own| && TailBit(b, x)
    ensures NoTwins(own, level)
  {
    hide TailBit, Parent, Sibling, Aligned, Pow2;
    assert Cell(own, off, level);
    ParentShape(off, lv);
    SiblingFits(off, lv, sz);
    var t := Sibling(off, lv);
    assert Cell(own, t, level) && Cell(own, x, level);
    Doubling(lv);
    assert own[x].used && own[off].lv == lv;
    ParentShape(t, lv);
    SiblingSides(off, lv);
    assert own[t] != Block(t, lv, false);
    forall y | 0 <= y < |own| && !own[y].used && own[y].at == y && own[y].lv + 1 < level
      ensures NotTwin(own, y, -1)
    {
      assert Cell(own, y, level);
      ParentShape(y, own[y].lv);
      SiblingFits(y, own[y].lv, sz);
      if y != off { assert NotTwin(own, y, off); }
    }
  }

  /** A block and its buddy fill their parent region. */
  lemma SiblingSides(a: nat, k: nat)
    requires Aligned(a, k)
    ensures Parent(a, k) == if Sibling(a, k) < a then Sibling(a, k) else a
    ensures Sibling(a, k) == a + Pow2(k) || Sibling(a, k) == a - Pow2(k)
  {}

  /** At the top level no buddy exists. */
  lemma TopNotTwin(own: seq<Block>, sz: nat, level: nat, off: nat, lv: nat)
    requires Tiling(own, sz, level) && NoTwinsExcept(own, level, off)
    requires lv + 1 >= level && off < |own| && own[off] == Block(off, lv, false)
    ensures NoTwins(own, level)
  {
    forall y | 0 <= y < |own| && !own[y].used && own[y].at == y && own[y].lv + 1 < level
      ensures NotTwin(own, y, -1)
    {
      assert NotTwin(own, y, off);
    }
  }

  // ----- the ghost effect of each list operation on the tiling

  /** Changing only free blocks keeps the bitmap and the allocated blocks. */
  ghost predicate SameUsed(own: seq<Block>, p: seq<Block>) {
    && |p| == |own|
    && forall x :: 0 <= x < |own| ==> p[x].used == own[x].used && (own[x].used ==> p[x] == own[x])
  }

  lemma SameUsedKeeps(b: seq<u8>, own: seq<Block>, p: seq<Block>)
    requires SameUsed(own, p) && Tails(b, own)
    ensures Tails(b, p) && LiveOf(p) == LiveOf(own)
  {}

  function Merged(own: seq<Block>, s: nat, lv: nat): seq<Block> {
    Paint(own, Block(s, lv + 1, false))
  }

  /** s and s + 2^lv start two free blocks of level lv in one parent region. */
  ghost predicate Twins(own: seq<Block>, sz: nat, level: nat, s: nat, lv: nat) {
    && lv + 1 < level && Aligned(s, lv + 1) && s + Pow2(lv + 1) <= |own|
    && own[s] == Block(s, lv, false) && own[s + Pow2(lv)] == Block(s + Pow2(lv), lv, false)
  }

  lemma MergeCells(own: seq<Block>, sz: nat, level: nat, s: nat, lv: nat)
    requires Tiling(own, sz, level) && Twins(own, sz, level, s, lv)
    ensures forall y :: s <= y < s + Pow2(lv + 1) ==> own[y] == if y < s + Pow2(lv) then own[s] else own[s + Pow2(lv)]
  {
    assert Cell(own, s, level) && Cell(own, s + Pow2(lv), level);
  }

  lemma MergeTiling(own: seq<Block>, sz: nat, level: nat, s: nat, lv: nat)
    requires Tiling(own, sz, level) && Twins(own, sz, level, s, lv)
    ensures Tiling(Merged(own, s, lv), sz, level) && SameUsed(own, Merged(own, s, lv))
  {
    MergeCells(own, sz, level, s, lv);
    PaintUp(own, sz, level, Block(s, lv + 1, false));
  }

  lemma MergeTwins(own: seq<Block>, sz: nat, level: nat, s: nat, lv: nat, hole: nat)
    requires Tiling(own, sz, level) && Twins(own, sz, level, s, lv)
    requires NoTwinsExcept(own, level, hole) && (hole == s || hole == s + Pow2(lv))
    ensures NoTwinsExcept(Merged(own, s, lv), level, s)
  {
    hide Aligned, Pow2, Tiling, NotTwin, Paint, Twins;
    var p := Merged(own, s, lv);
    Doubling(lv);
    MergedSize(own, s, lv);
    forall y | 0 <= y < |p| && !p[y].used && p[y].at == y && y != s && p[y].lv + 1 < level
      ensures NotTwin(p, y, s)
    {
      MergeOutside(own, sz, level, s, lv, y);
      assert NotTwin(own, y, hole);
      MergeTwinAt(own, sz, level, s, lv, hole, y);
    }
  }

  lemma MergedSize(own: seq<Block>, s: nat, lv: nat)
    ensures |Merged(own, s, lv)| == |own|
    ensures forall x :: 0 <= x < |own| ==>
      Merged(own, s, lv)[x] == if s <= x < s + Pow2(lv + 1) then Block(s, lv + 1, false) else own[x]
  {}

  /** A block other than the merged one is where it was. */
  lemma MergeOutside(own: seq<Block>, sz: nat, level: nat, s: nat, lv: nat, y: nat)
    requires Tiling(own, sz, level) && Twins(own, sz, level, s, lv) && y < |own| && y != s
    requires Merged(own, s, lv)[y].at == y
    ensures Merged(own, s, lv)[y] == own[y] && !(s <= y < s + Pow2(lv + 1))
  {}

  lemma MergeTwinAt(own: seq<Block>, sz: nat, level: nat, s: nat, lv: nat, hole: nat, y: nat)
    requires Tiling(own, sz, level) && Twins(own, sz, level, s, lv) && (hole == s || hole == s + Pow2(lv))
    requires y < |own| && Merged(own, s, lv)[y] == own[y] && NotTwin(own, y, hole)
    ensures |Merged(own, s, lv)| == |own| && NotTwin(Merged(own, s, lv), y, s)
  {
    hide Aligned, Pow2, Sibling, Tiling, Merged, Paint;
    MergedSize(own, s, lv);
    Doubling(lv);
  }

  lemma MergeLists(own: seq<Block>, sz: nat, level: nat, lists: seq<seq<nat>>, s: nat, lv: nat, L: seq<nat>)
    requires Tiling(own, sz, level) && Twins(own, sz, level, s, lv) && AllLists(lists, own, level)
    requires Distinct(L)
    requires forall x :: x in L <==> x in lists[lv] && x != s && x != s + Pow2(lv)
    ensures AllLists(lists[lv := L][lv + 1 := [s] + lists[lv + 1]], Merged(own, s, lv), level)
  {
    var p := Merged(own, s, lv);
    MergeCells(own, sz, level, s, lv);
    var lists' := lists[lv := L][lv + 1 := [s] + lists[lv + 1]];
    NotListed(lists, own, level, s, lv + 1);
    forall k | 0 <= k < level ensures Lists(lists'[k], p, k) {
      assert Lists(lists[k], own, k);
      if k == lv {
        RelistLower(own, p, lists[lv], L, s, lv);
      } else if k == lv + 1 {
        RelistUpper(own, p, lists[k], s, k);
      } else {
        Relist(own, p, lists[k], k);
      }
    }
  }

  /** A level whose blocks did not change keeps its list. */
  lemma Relist(own: seq<Block>, p: seq<Block>, L: seq<nat>, k: nat)
    requires Lists(L, own, k) && |p| == |own|
    requires forall x :: 0 <= x < |own| ==> (own[x] == Block(x, k, false) <==> p[x] == Block(x, k, false))
    ensures Lists(L, p, k)
  {}

  lemma RelistLower(own: seq<Block>, p: seq<Block>, L0: seq<nat>, L: seq<nat>, s: nat, k: nat)
    requires Lists(L0, own, k) && |p| == |own| && Distinct(L)
    requires forall x :: x in L <==> x in L0 && x != s && x != s + Pow2(k)
    requires forall x :: 0 <= x < |own| ==>
      (p[x] == Block(x, k, false) <==> own[x] == Block(x, k, false) && x != s && x != s + Pow2(k))
    ensures Lists(L, p, k)
  {
    forall i | 0 <= i < |L| ensures L[i] < |p| && p[L[i]] == Block(L[i], k, false) {
      assert L[i] in L;
    }
  }

  lemma RelistUpper(own: seq<Block>, p: seq<Block>, L: seq<nat>, s: nat, k: nat)
    requires Lists(L, own, k) && |p| == |own| && s < |own| && s !in L
    requires forall x :: 0 <= x < |own| ==>
      (p[x] == Block(x, k, false) <==> own[x] == Block(x, k, false) || x == s)
    ensures Lists([s] + L, p, k)
  {
    var M := [s] + L;
    assert forall i :: 0 <= i < |M| ==> M[i] == if i == 0 then s else L[i - 1];
  }

  function Halved(own: seq<Block>, a: nat, lv: nat): seq<Block> {
    Paint(Paint(own, Block(a, lv, false)), Block(a + Pow2(lv), lv, false))
  }

  lemma SplitCells(own: seq<Block>, sz: nat, level: nat, a: nat, lv: nat)
    requires Tiling(own, sz, level) && lv + 1 < level && a < |own| && own[a] == Block(a, lv + 1, false)
    ensures a + Pow2(lv + 1) <= |own| && Aligned(a, lv + 1) && Aligned(a, lv)
    ensures forall y :: a <= y < a + Pow2(lv + 1) ==> own[y] == own[a]
    ensures forall y :: 0 <= y < |own| ==>
      (Halved(own, a, lv)[y] ==
       if a <= y < a + Pow2(lv) then Block(a, lv, false)
       else if a + Pow2(lv) <= y < a + Pow2(lv + 1) then Block(a + Pow2(lv), lv, false) else own[y])
  {
    assert Cell(own, a, level);
    AlignedDown(a, lv, lv + 1);
  }

  lemma SplitTiling(own: seq<Block>, sz: nat, level: nat, a: nat, lv: nat)
    requires Tiling(own, sz, level) && lv + 1 < level && a < |own| && own[a] == Block(a, lv + 1, false)
    ensures Tiling(Halved(own, a, lv), sz, level) && SameUsed(own, Halved(own, a, lv))
  {
    SplitCells(own, sz, level, a, lv);
    PaintSplit(own, sz, level, a, lv);
  }

  lemma SplitTwins(own: seq<Block>, sz: nat, level: nat, a: nat, lv: nat)
    requires Tiling(own, sz, level) && lv + 1 < level && a < |own| && own[a] == Block(a, lv + 1, false)
    requires NoTwinsExcept(own, level, a)
    requires forall x :: 0 <= x < |own| ==> own[x] != Block(x, lv, false)
    ensures NoTwinsExcept(Halved(own, a, lv), level, a)
  {
    var p, h := Halved(own, a, lv), a + Pow2(lv);
    SplitCells(own, sz, level, a, lv);
    ParentShape(a, lv);
    forall y | 0 <= y < |p| && !p[y].used && p[y].at == y && y != a && p[y].lv + 1 < level
      ensures NotTwin(p, y, a)
    {
      if y == h {
        assert Sibling(h, lv) == a;
      } else {
        assert p[y] == own[y];
        assert Cell(own, y, level);
        SiblingFits(y, own[y].lv, sz);
        assert NotTwin(own, y, a);
      }
    }
  }

  lemma SplitLists(own: seq<Block>, sz: nat, level: nat, lists: seq<seq<nat>>, lv: nat)
    requires Tiling(own, sz, level) && AllLists(lists, own, level) && lv + 1 < level
    requires lists[lv] == [] && lists[lv + 1] != []
    ensures var a := lists[lv + 1][0];
            && a < |own| && own[a] == Block(a, lv + 1, false)
            && (forall x :: 0 <= x < |own| ==> own[x] != Block(x, lv, false))
            && AllLists(lists[lv := [a, a + Pow2(lv)]][lv + 1 := lists[lv + 1][1..]], Halved(own, a, lv), level)
  {
    var a := lists[lv + 1][0];
    assert Lists(lists[lv + 1], own, lv + 1) && Lists(lists[lv], own, lv);
    SplitCells(own, sz, level, a, lv);
    var h, p := a + Pow2(lv), Halved(own, a, lv);
    var lists' := lists[lv := [a, h]][lv + 1 := lists[lv + 1][1..]];
    forall k | 0 <= k < level ensures Lists(lists'[k], p, k) {
      assert Lists(lists[k], own, k);
      if k == lv + 1 {
        RelistTail(own, p, lists[k], k);
      } else if k != lv {
        Relist(own, p, lists[k], k);
      }
    }
  }

  /** A level that loses the head of its list. */
  lemma RelistTail(own: seq<Block>, p: seq<Block>, L: seq<nat>, k: nat)
    requires Lists(L, own, k) && |p| == |own| && L != []
    requires forall x :: 0 <= x < |own| ==>
      (p[x] == Block(x, k, false) <==> own[x] == Block(x, k, false) && x != L[0])
    ensures Lists(L[1..], p, k)
  {
    var M := L[1..];
    assert forall i :: 0 <= i < |M| ==> M[i] == L[i + 1];
    forall x | 0 <= x < |p| && p[x] == Block(x, k, false) ensures x in M {
      var i :| 0 <= i < |L| && L[i] == x;
      assert M[i - 1] == x;
    }
  }

  function Taken(own: seq<Block>, a: nat, k: nat): seq<Block> {
    Paint(own, Block(a, k, true))
  }

  lemma TakeTiling(own: seq<Block>, sz: nat, level: nat, a: nat, k: nat)
    requires Tiling(own, sz, level) && a < |own| && own[a] == Block(a, k, false)
    requires NoTwinsExcept(own, level, a)
    ensures k < level && a + Pow2(k) <= |own| && FreeRun(own, a, k)
    ensures forall y :: a <= y < a + Pow2(k) ==> own[y] == own[a]
    ensures Tiling(Taken(own, a, k), sz, level) && NoTwins(Taken(own, a, k), level)
  {
    assert Cell(own, a, level);
    PaintUp(own, sz, level, Block(a, k, true));
    var p := Taken(own, a, k);
    forall y | 0 <= y < |p| && !p[y].used && p[y].at == y && p[y].lv + 1 < level
      ensures NotTwin(p, y, -1)
    {
      assert p[y] == own[y];
      assert Cell(own, y, level);
      SiblingFits(y, own[y].lv, sz);
      assert NotTwin(own, y, a);
    }
  }

  lemma TakeLists(own: seq<Block>, level: nat, lists: seq<seq<nat>>, k: nat)
    requires AllLists(lists, own, level) && k < level && lists[k] != []
    requires lists[k][0] + Pow2(k) <= |own|
    requires forall y :: lists[k][0] <= y < lists[k][0] + Pow2(k) ==> own[y] == Block(lists[k][0], k, false)
    ensures AllLists(lists[k := lists[k][1..]], Taken(own, lists[k][0], k), level)
  {
    var a := lists[k][0];
    var p := Taken(own, a, k);
    var lists' := lists[k := lists[k][1..]];
    forall j | 0 <= j < level ensures Lists(lists'[j], p, j) {
      assert Lists(lists[j], own, j);
      if j == k { RelistTail(own, p, lists[j], j); } else { Relist(own, p, lists[j], j); }
    }
  }

  function SetTail(b: seq<u8>, x: nat): seq<u8>
    requires x / 8 < |b|
  {
    b[x / 8 := ByteSet(b[x / 8], x % 8)]
  }

  function ClearTail(b: seq<u8>, x: nat): seq<u8>
    requires x / 8 < |b|
  {
    b[x / 8 := ByteClear(b[x / 8], x % 8)]
  }

  lemma TakeTails(b: seq<u8>, own: seq<Block>, a: nat, k: nat)
    requires Tails(b, own) && a + Pow2(k) <= |own|
    requires forall y :: a <= y < a + Pow2(k) ==> own[y] == Block(a, k, false)
    ensures (a + Pow2(k) - 1) / 8 < |b| && Tails(SetTail(b, a + Pow2(k) - 1), Taken(own, a, k))
    ensures a !in LiveOf(own) && LiveOf(Taken(own, a, k)) == LiveOf(own)[a := k]
  {
    forall x | 0 <= x < |own|
      ensures TailBit(SetTail(b, a + Pow2(k) - 1), x) ==
              (Taken(own, a, k)[x].used && x == TailOf(Taken(own, a, k)[x]))
    {
      TakeTailAt(b, own, a, k, x);
    }
    LiveWith(own, a, k);
  }

  lemma TakeTailAt(b: seq<u8>, own: seq<Block>, a: nat, k: nat, x: nat)
    requires Tails(b, own) && a + Pow2(k) <= |own| && x < |own|
    requires forall y :: a <= y < a + Pow2(k) ==> own[y] == Block(a, k, false)
    ensures TailBit(SetTail(b, a + Pow2(k) - 1), x) ==
            (Taken(own, a, k)[x].used && x == TailOf(Taken(own, a, k)[x]))
  {
    hide TailBit;
    BitmapSet(b, a + Pow2(k) - 1, x);
  }

  lemma LiveWith(own: seq<Block>, a: nat, k: nat)
    requires a + Pow2(k) <= |own|
    requires forall y :: a <= y < a + Pow2(k) ==> own[y] == Block(a, k, false)
    ensures a !in LiveOf(own) && LiveOf(Taken(own, a, k)) == LiveOf(own)[a := k]
  {
    assert own[a] == Block(a, k, false);
    var l, r := LiveOf(Taken(own, a, k)), LiveOf(own)[a := k];
    assert forall x :: x in l <==> x in r;
    assert forall x :: x in l ==> l[x] == r[x];
  }

  function Released(own: seq<Block>, a: nat, k: nat): seq<Block> {
    Paint(own, Block(a, k, false))
  }

  lemma ReleaseTiling(own: seq<Block>, sz: nat, level: nat, a: nat, k: nat)
    requires Tiling(own, sz, level) && NoTwins(own, level) && a < |own| && own[a] == Block(a, k, true)
    ensures k < level && a + Pow2(k) <= |own|
    ensures forall y :: a <= y < a + Pow2(k) ==> own[y] == own[a]
    ensures Tiling(Released(own, a, k), sz, level) && NoTwinsExcept(Released(own, a, k), level, a)
  {
    assert Cell(own, a, level);
    var p := Released(own, a, k);
    PaintUp(own, sz, level, Block(a, k, false));
    forall y | 0 <= y < |p| && !p[y].used && p[y].at == y && y != a && p[y].lv + 1 < level
      ensures NotTwin(p, y, a)
    {
      assert p[y] == own[y];
      assert Cell(own, y, level);
      SiblingFits(y, own[y].lv, sz);
      assert NotTwin(own, y, -1);
    }
  }

  lemma ReleaseTails(b: seq<u8>, own: seq<Block>, a: nat, k: nat)
    requires Tails(b, own) && a + Pow2(k) <= |own|
    requires forall y :: a <= y < a + Pow2(k) ==> own[y] == Block(a, k, true)
    ensures (a + Pow2(k) - 1) / 8 < |b| && Tails(ClearTail(b, a + Pow2(k) - 1), Released(own, a, k))
    ensures LiveOf(Released(own, a, k)) == LiveOf(own) - {a}
  {
    forall x | 0 <= x < |own|
      ensures TailBit(ClearTail(b, a + Pow2(k) - 1), x) ==
              (Released(own, a, k)[x].used && x == TailOf(Released(own, a, k)[x]))
    {
      ReleaseTailAt(b, own, a, k, x);
    }
    LiveWithout(own, a, k);
  }

  lemma ReleaseTailAt(b: seq<u8>, own: seq<Block>, a: nat, k: nat, x: nat)
    requires Tails(b, own) && a + Pow2(k) <= |own| && x < |own|
    requires forall y :: a <= y < a + Pow2(k) ==> own[y] == Block(a, k, true)
    ensures TailBit(ClearTail(b, a + Pow2(k) - 1), x) ==
            (Released(own, a, k)[x].used && x == TailOf(Released(own, a, k)[x]))
  {
    hide TailBit;
    BitmapClear(b, a + Pow2(k) - 1, x);
  }

  lemma LiveWithout(own: seq<Block>, a: nat, k: nat)
    requires a + Pow2(k) <= |own|
    requires forall y :: a <= y < a + Pow2(k) ==> own[y] == Block(a, k, true)
    ensures LiveOf(Released(own, a, k)) == LiveOf(own) - {a}
  {
    var l, r := LiveOf(Released(own, a, k)), LiveOf(own) - {a};
    assert forall x :: x in l <==> x in r;
    assert forall x :: x in l ==> l[x] == r[x];
  }

  lemma ReleaseLists(own: seq<Block>, level: nat, lists: seq<seq<nat>>, a: nat, k: nat, L: seq<nat>)
    requires AllLists(lists, own, level) && k < level && a + Pow2(k) <= |own|
    requires forall y :: a <= y < a + Pow2(k) ==> own[y] == Block(a, k, true)
    requires Distinct(L)
    requires forall x :: x in L <==> x in lists[k] || x == a
    ensures AllLists(lists[k := L], Released(own, a, k), level)
  {
    var p := Released(own, a, k);
    var lists' := lists[k := L];
    forall j | 0 <= j < level ensures Lists(lists'[j], p, j) {
      assert Lists(lists[j], own, j);
      if j == k { RelistInsert(own, p, lists[k], L, a, k); } else { Relist(own, p, lists[j], j); }
    }
  }

  lemma RelistInsert(own: seq<Block>, p: seq<Block>, L0: seq<nat>, L: seq<nat>, a: nat, k: nat)
    requires Lists(L0, own, k) && |p| == |own| && Distinct(L) && a < |own|
    requires forall x :: x in L <==> x in L0 || x == a
    requires forall x :: 0 <= x < |own| ==>
      (p[x] == Block(x, k, false) <==> own[x] == Block(x, k, false) || x == a)
    ensures Lists(L, p, k)
  {
    forall i | 0 <= i < |L| ensures L[i] < |p| && p[L[i]] == Block(L[i], k, false) {
      assert L[i] in L;
    }
  }

  /** When every list from level k up is empty, no aligned run of 2^k units is free. */
  lemma NoRoom(own: seq<Block>, sz: nat, level: nat, lists: seq<seq<nat>>, k: nat)
    requires Tiling(own, sz, level) && NoTwins(own, level) && AllLists(lists, own, level) && k < level
    requires forall j :: k <= j < level ==> lists[j] == []
    ensures forall r: nat :: !Unclaimed(LiveOf(own), |own|, r, k)
  {
    forall r: nat ensures !Unclaimed(LiveOf(own), |own|, r, k) {
      RunIsUnclaimed(own, sz, level, r, k);
      if FreeRun(own, r, k) {
        assert Cell(own, r, level);
        var blk := own[r];
        assert own[blk.at] == blk && !blk.used;
        assert Lists(lists[blk.lv], own, blk.lv);
        Coalesced(own, sz, level, -1, r, k);
      }
    }
  }
}
