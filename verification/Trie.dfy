/** Poptrie as a value: 64-way nodes over the radix tree, what an update makes of them, and
    why every address keeps its longest match. */
module Trie {
  import opened Bits
  import opened Arith
  import opened Rib

  /** One slot of a node: a next hop, or a child node. */
  datatype Slot = Leaf(v: u16) | Kid(t: Trie)

  datatype Trie = Trie(slots: seq<Slot>)

  // ----- what it means to agree with the radix tree

  /** Every slot of t agrees with the radix position six bits further down. */
  ghost predicate Tracks(t: Trie, c: Cur)
    decreases t, 1
  {
    |t.slots| == 64 && forall i :: 0 <= i < 64 ==> TracksSlot(t.slots[i], SubN(c, i, 6))
  }

  ghost predicate TracksSlot(s: Slot, c: Cur)
    decreases s, 0
  {
    match s
    case Leaf(v) => Const(c, v)
    case Kid(t) => !IsLeaf(c) && Tracks(t, c)
  }

  /** A direct-pointing entry: as a slot, but a node may stand above a missing subtree. */
  ghost predicate TracksEntry(s: Slot, c: Cur) {
    match s
    case Leaf(v) => Const(c, v)
    case Kid(t) => Tracks(t, c)
  }

  // ----- lookup

  /** The d leading bits of the 64-bit word (u64)addr << 32. */
  function Top(addr: u32, d: nat): nat
    requires d <= 64
  {
    Shr(addr * 0x1_0000_0000, 64 - d)
  }

  /** INDEX(addr, s, n) */
  function Chunk(addr: u32, s: nat, n: nat): (k: nat)
    requires s + n <= 64
    ensures k < Pow2(n)
  {
    ChunkIsMod(addr, s, n);
    And(Shr(addr * 0x1_0000_0000, 64 - (s + n)), Pow2(n) - 1)
  }

  lemma {:induction false} AndMask(x: nat, n: nat)
    ensures And(x, Pow2(n) - 1) == x % Pow2(n) < Pow2(n)
  {
    hide And, Pow2;
    if n == 0 {
      AndNone(x);
    } else if x == 0 {
      AndZero(n);
    } else {
      AndMask(x / 2, n - 1);
      Doubling(n - 1);
      var p := Pow2(n - 1);
      HalfParts(x, p);
      AndOddMask(x, p - 1);
      assert 2 * (p - 1) + 1 == Pow2(n) - 1;
    }
  }

  lemma AndZero(n: nat)
    ensures And(0, Pow2(n) - 1) == 0 == 0 % Pow2(n)
  {}

  lemma AndNone(x: nat)
    ensures And(x, Pow2(0) - 1) == x % Pow2(0) < Pow2(0)
  {
    assert Pow2(0) == 1;
  }

  lemma AndOddMask(x: nat, m: nat)
    ensures And(x, 2 * m + 1) == x % 2 + 2 * And(x / 2, m)
  {
    if x > 0 && m == 0 { assert And(x / 2, 0) == 0; }
  }

  lemma ChunkIsMod(addr: u32, s: nat, n: nat)
    requires s + n <= 64
    ensures And(Shr(addr * 0x1_0000_0000, 64 - (s + n)), Pow2(n) - 1) == Top(addr, s + n) % Pow2(n) < Pow2(n)
  {
    AndMask(Top(addr, s + n), n);
  }

  lemma {:induction false} ShrShr(x: nat, j: nat, k: nat)
    ensures Shr(x, j + k) == Shr(Shr(x, j), k)
  {
    if j > 0 { ShrShr(x / 2, j - 1, k); }
  }

  lemma {:induction false} ShrIsDiv(x: nat, k: nat)
    ensures Shr(x, k) == x / Pow2(k)
  {
    if k > 0 {
      ShrIsDiv(x / 2, k - 1);
      HalfParts(x, Pow2(k - 1));
    }
  }

  /** The stride chunks of an address concatenate to its leading bits. */
  lemma TopStep(addr: u32, s: nat, n: nat)
    requires s + n <= 64
    ensures Top(addr, s + n) == Top(addr, s) * Pow2(n) + Chunk(addr, s, n)
  {
    ChunkIsMod(addr, s, n);
    var x := Top(addr, s + n);
    ShrShr(addr * 0x1_0000_0000, 64 - (s + n), n);
    ShrIsDiv(x, n);
    hide Shr, Pow2, And;
    DivParts(x, Pow2(n));
  }

  lemma TopAt32(addr: u32)
    ensures Top(addr, 32) == addr && Top(addr, 0) == 0
    ensures forall d :: 0 <= d <= 32 ==> Top(addr, d) == Shr(addr, 32 - d)
  {
    hide Pow2;
    Pow2At64();
    ShrIsDiv(addr * 0x1_0000_0000, 32);
    ShrIsDiv(addr * 0x1_0000_0000, 64);
    forall d | 0 <= d <= 32 ensures Top(addr, d) == Shr(addr, 32 - d) {
      ShrShr(addr * 0x1_0000_0000, 32, 32 - d);
    }
  }

  /** Where the walk stands after the d leading bits of an address. */
  function Walk(root: Cur, addr: u32, d: nat): Cur
    requires d <= 64
  {
    SubN(root, Top(addr, d), d)
  }

  /** A stride walk follows the bit walk. */
  lemma WalkStep(root: Cur, addr: u32, s: nat, n: nat)
    requires s + n <= 64
    ensures Walk(root, addr, s + n) == SubN(Walk(root, addr, s), Chunk(addr, s, n), n)
  {
    TopStep(addr, s, n);
    SubNCompose(root, Top(addr, s), s, Chunk(addr, s, n), n);
  }

  lemma WalkEnd(root: Cur, addr: u32, d: nat)
    requires 32 <= d <= 64 && Tall(root) <= 32
    ensures Walk(root, addr, d).ext == Val(root, addr) && IsLeaf(Walk(root, addr, d))
  {
    TopAt32(addr);
    SubNTall(root, addr, 32);
    LeafIsTall0(Walk(root, addr, 32));
    WalkStep(root, addr, 32, d - 32);
    SubNLeaf(Walk(root, addr, 32), Chunk(addr, 32, d - 32), d - 32);
  }

  /** A uniform position decides every address below it. */
  lemma ConstVal(root: Cur, addr: u32, d: nat, v: u16)
    requires d <= 64 && Tall(root) <= 32 && Const(Walk(root, addr, d), v)
    ensures Val(root, addr) == v
  {
    if d < 32 {
      WalkStep(root, addr, d, 32 - d);
      ConstDown(Walk(root, addr, d), v, Chunk(addr, d, 32 - d), 32 - d);
    }
    var e := if d < 32 then 32 else d;
    WalkEnd(root, addr, e);
    ConstLeaf(Walk(root, addr, e), v);
  }

  // ----- updates

  /** All slots hold one and the same next hop. */
  predicate Degenerate(t: Trie) {
    |t.slots| == 64 && t.slots[0].Leaf? && forall i :: 0 <= i < 64 ==> t.slots[i] == t.slots[0]
  }

  /** Vertical compression: a node with a single next hop becomes a leaf of its parent. */
  function Compress(t: Trie): Slot {
    if Degenerate(t) then t.slots[0] else Kid(t)
  }

  predicate MarkedBelow(c: Cur) {
    (c.left.Node? && c.left.mark) || (c.right.Node? && c.right.mark)
  }

  /** The old content of slot i; a leaf (or no node) has no slots of its own. */
  function Past(o: Slot, i: nat): Slot {
    if o.Kid? && i < |o.t.slots| then o.t.slots[i] else o
  }

  /** The node built for radix position c when o is what stood there before: slots without marks
      below them are taken over from o, the others are built anew. */
  function Rebuild(o: Slot, c: Cur): (t: Trie)
    ensures |t.slots| == 64
    decreases Tall(c), 1
  {
    Trie(seq(64, i requires 0 <= i < 64 => RebuildSlot(o, c, i)))
  }

  function RebuildSlot(o: Slot, c: Cur, i: nat): Slot
    decreases Tall(c), 0
  {
    var s := SubN(c, i, 6);
    SubNTall(c, i, 6);
    LeafIsTall0(s);
    if IsLeaf(s) then Leaf(s.ext)
    else if o.Leaf? || MarkedBelow(s) then Compress(Rebuild(Past(o, i), s))
    else Past(o, i)
  }

  /** The node at `depth` after the route with the given prefix and length changed: the path to
      the block that holds the prefix is kept, that block (or all below a leaf) is rebuilt. */
  function Refresh(o: Slot, c: Cur, prefix: u32, len: nat, depth: nat): (t: Trie)
    requires len <= 32
    decreases 64 - depth
  {
    if o.Leaf? || len <= depth + 6 || |o.t.slots| != 64 then Rebuild(o, c)
    else
      var idx := Chunk(prefix, depth, 6);
      assert Pow2(6) == 64;
      Trie(o.t.slots[idx := Compress(Refresh(o.t.slots[idx], SubN(c, idx, 6), prefix, len, depth + 6))])
  }

  /** The direct-pointing entry after the update. */
  function RefreshEntry(o: Slot, c: Cur, prefix: u32, len: nat): Slot
    requires len <= 32
  {
    if o.Leaf? || len <= 24 then Compress(Rebuild(o, c)) else Kid(Refresh(o, c, prefix, len, 18))
  }

  // ----- soundness of reuse

  /** The two positions have the same subtrees hanging off them, with the same inherited routes. */
  predicate SameBelow(c0: Cur, c1: Cur) {
    Down(c0, false) == Down(c1, false) && Down(c0, true) == Down(c1, true)
  }

  /** A half of the position has no radix node, and inherits another route than before. */
  predicate StaleHalf(c0: Cur, c1: Cur) {
    c1.ext != c0.ext && (c1.left.Nil? || c1.right.Nil?)
  }

  /** No slot that the update keeps, because neither child of its position is marked, has a half
      that inherits the changed route. */
  ghost predicate ReuseOK(o: Slot, c0: Cur, c1: Cur)
    decreases o
  {
    o.Leaf? || |o.t.slots| != 64 ||
    forall i :: 0 <= i < 64 ==> ReuseSlotOK(o, c0, c1, i)
  }

  ghost predicate ReuseSlotOK(o: Slot, c0: Cur, c1: Cur, i: nat)
    requires o.Kid? && |o.t.slots| == 64 && i < 64
    decreases o, 0
  {
    var s0, s1 := SubN(c0, i, 6), SubN(c1, i, 6);
    IsLeaf(s1) || if MarkedBelow(s1) then ReuseOK(o.t.slots[i], s0, s1) else !StaleHalf(s0, s1)
  }

  lemma SameBelowSub(c0: Cur, c1: Cur, i: nat, n: nat)
    requires SameBelow(c0, c1) && n >= 1
    ensures SubN(c0, i, n) == SubN(c1, i, n)
  {
    SubNHead(c0, i, n - 1);
    SubNHead(c1, i, n - 1);
  }

  lemma SameBelowTracks(s: Slot, c0: Cur, c1: Cur)
    requires SameBelow(c0, c1) && TracksSlot(s, c0)
    ensures TracksSlot(s, c1) || IsLeaf(c1)
  {
    match s
    case Leaf(v) =>
      ConstSplit(c0, v);
      ConstSplit(c1, v);
    case Kid(t) =>
      forall i | 0 <= i < 64 ensures TracksSlot(t.slots[i], SubN(c1, i, 6)) {
        SameBelowSub(c0, c1, i, 6);
      }
  }

  lemma CompressTracks(t: Trie, c: Cur)
    requires Tracks(t, c) && !IsLeaf(c)
    ensures TracksSlot(Compress(t), c)
  {
    if Degenerate(t) { DegenerateConst(t, c); }
  }

  lemma DegenerateConst(t: Trie, c: Cur)
    requires Tracks(t, c) && Degenerate(t)
    ensures Const(c, t.slots[0].v)
  {
    assert Pow2(6) == 64;
    forall i | 0 <= i < Pow2(6) ensures Const(SubN(c, i, 6), t.slots[0].v) {
      assert TracksSlot(t.slots[i], SubN(c, i, 6));
    }
    ConstUp(c, t.slots[0].v, 6);
  }

  lemma CompressEntry(t: Trie, c: Cur)
    requires Tracks(t, c)
    ensures TracksEntry(Compress(t), c)
  {
    if Degenerate(t) { DegenerateConst(t, c); }
  }

  // ----- a node built from scratch

  /** With no old node the radix tree alone decides. */
  function Fresh(c: Cur): Trie {
    Rebuild(Leaf(0), c)
  }

  lemma {:induction false} FreshTracks(v: u16, c: Cur)
    ensures Tracks(Rebuild(Leaf(v), c), c)
    decreases Tall(c)
  {
    forall i | 0 <= i < 64 ensures TracksSlot(Rebuild(Leaf(v), c).slots[i], SubN(c, i, 6)) {
      var s := SubN(c, i, 6);
      SubNTall(c, i, 6);
      LeafIsTall0(s);
      assert Rebuild(Leaf(v), c).slots[i] == RebuildSlot(Leaf(v), c, i);
      if IsLeaf(s) {
        ConstLeaf(s, s.ext);
      } else {
        FreshTracks(v, s);
        CompressTracks(Rebuild(Leaf(v), s), s);
      }
    }
  }
}
