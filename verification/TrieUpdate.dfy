/** How a changed route moves through the radix tree, and when the mark-driven update of the
    64-way nodes is right: always for an added route, and for a changed or deleted route exactly
    when its reuse test never meets a half-empty position that inherits the changed route. */
module TrieUpdate {
  import opened Arith
  import opened Bits
  import opened Rib
  import opened Trie

  predicate UnmarkedAt(c: Cur) { Unmarked(c.left) && Unmarked(c.right) }

  lemma EnterUnmarked(r: Rib)
    requires Unmarked(r)
    ensures UnmarkedAt(Enter(r, 0))
  {}

  /** c1 is c0 at or below the updated radix node. */
  predicate Below(mode: Mode, c0: Cur, c1: Cur) {
    c1.left == Spread(mode, c0.left) && c1.right == Spread(mode, c0.right)
  }

  /** c1 is c0 at a position that is not above the updated radix node. */
  predicate Settled(mode: Mode, c0: Cur, c1: Cur) {
    c1 == c0 || Below(mode, c0, c1)
  }

  /** The updated radix node lies n bits below, along the n low bits of i. */
  predicate Toward(mode: Mode, c0: Cur, c1: Cur, i: nat, n: nat, route: Option<u16>) {
    if n == 0 then Below(mode, c0, c1)
    else
      && c1.ext == c0.ext
      && c1.left == (if Bit(i, n - 1) then c0.left else Put(mode, c0.left, i, n - 1, route))
      && c1.right == (if Bit(i, n - 1) then Put(mode, c0.right, i, n - 1, route) else c0.right)
  }

  lemma PutToward(mode: Mode, r: Rib, e: u16, i: nat, n: nat, route: Option<u16>)
    ensures Toward(mode, Enter(r, e), Enter(Put(mode, r, i, n, route), e), i, n, route)
  {}

  lemma SettledDown(mode: Mode, c0: Cur, c1: Cur, b: bool)
    requires Settled(mode, c0, c1)
    ensures Settled(mode, Down(c0, b), Down(c1, b))
  {}

  lemma {:induction false} SettledSub(mode: Mode, c0: Cur, c1: Cur, j: nat, m: nat)
    requires Settled(mode, c0, c1)
    ensures Settled(mode, SubN(c0, j, m), SubN(c1, j, m))
  {
    if m > 0 {
      SettledSub(mode, c0, c1, j / 2, m - 1);
      SettledDown(mode, SubN(c0, j / 2, m - 1), SubN(c1, j / 2, m - 1), j % 2 == 1);
    }
  }

  lemma {:induction false} UnmarkedSub(c: Cur, j: nat, m: nat)
    requires UnmarkedAt(c)
    ensures UnmarkedAt(SubN(c, j, m))
  {
    if m > 0 { UnmarkedSub(c, j / 2, m - 1); }
  }

  lemma TowardDown(mode: Mode, c0: Cur, c1: Cur, i: nat, n: nat, route: Option<u16>, b: bool)
    requires n > 0 && Toward(mode, c0, c1, i, n, route)
    ensures b == Bit(i, n - 1) ==> Toward(mode, Down(c0, b), Down(c1, b), i, n - 1, route)
    ensures b != Bit(i, n - 1) ==> Down(c1, b) == Down(c0, b)
  {}

  /** The m bits of j are the m leading bits of the n-bit path i. */
  predicate OnPath(i: nat, n: nat, j: nat, m: nat)
    requires m <= n
  {
    forall k :: 0 <= k < m ==> Bit(j, k) == Bit(i, n - m + k)
  }

  lemma {:induction false} TowardSub(mode: Mode, c0: Cur, c1: Cur, i: nat, n: nat, route: Option<u16>, j: nat, m: nat)
    requires m <= n && Toward(mode, c0, c1, i, n, route)
    ensures OnPath(i, n, j, m) ==> Toward(mode, SubN(c0, j, m), SubN(c1, j, m), i, n - m, route)
    ensures !OnPath(i, n, j, m) ==> SubN(c1, j, m) == SubN(c0, j, m)
    decreases m
  {
    if m > 0 {
      var b := Bit(j, m - 1);
      SubNHead(c0, j, m - 1);
      SubNHead(c1, j, m - 1);
      TowardDown(mode, c0, c1, i, n, route, b);
      if b == Bit(i, n - 1) {
        TowardSub(mode, Down(c0, b), Down(c1, b), i, n - 1, route, j, m - 1);
        assert OnPath(i, n, j, m) <==> OnPath(i, n - 1, j, m - 1);
      }
    }
  }

  /** Positions at least as deep as the updated node are settled. */
  lemma TowardSettles(mode: Mode, c0: Cur, c1: Cur, i: nat, n: nat, route: Option<u16>, j: nat, m: nat)
    requires n <= m && Toward(mode, c0, c1, i, n, route)
    ensures Settled(mode, SubN(c0, j, m), SubN(c1, j, m))
    decreases m
  {
    if m == n {
      TowardSub(mode, c0, c1, i, n, route, j, m);
    } else {
      TowardSettles(mode, c0, c1, i, n, route, j / 2, m - 1);
      SettledDown(mode, SubN(c0, j / 2, m - 1), SubN(c1, j / 2, m - 1), j % 2 == 1);
    }
  }

  ghost predicate SlotsSettled(mode: Mode, c0: Cur, c1: Cur) {
    forall i :: 0 <= i < 64 ==> Settled(mode, SubN(c0, i, 6), SubN(c1, i, 6))
  }

  // ----- what is kept

  /** Where no child is marked the update left both subtrees alone: keeping the slot is right
      unless a missing half inherits the changed route. */
  lemma KeptSame(mode: Mode, c0: Cur, c1: Cur)
    requires Settled(mode, c0, c1) && UnmarkedAt(c0) && !IsLeaf(c1) && !MarkedBelow(c1)
    ensures SameBelow(c0, c1) <==> !StaleHalf(c0, c1)
    ensures c0.left == c1.left && c0.right == c1.right
    ensures mode == Adding ==> c0 == c1
  {}

  lemma SettledSlots(mode: Mode, c0: Cur, c1: Cur)
    requires Settled(mode, c0, c1)
    ensures SlotsSettled(mode, c0, c1)
  {
    forall i | 0 <= i < 64 ensures Settled(mode, SubN(c0, i, 6), SubN(c1, i, 6)) { SettledSub(mode, c0, c1, i, 6); }
  }

  /** Building from the radix tree, with sound reuse of the old node, agrees with the new tree. */
  lemma {:induction false} RebuildTracks(mode: Mode, o: Slot, c0: Cur, c1: Cur)
    requires o.Kid? ==> Tracks(o.t, c0)
    requires UnmarkedAt(c0) && SlotsSettled(mode, c0, c1) && ReuseOK(o, c0, c1)
    ensures Tracks(Rebuild(o, c1), c1)
    decreases Tall(c1)
  {
    if o.Leaf? {
      FreshTracks(o.v, c1);
      return;
    }
    forall i | 0 <= i < 64 ensures TracksSlot(Rebuild(o, c1).slots[i], SubN(c1, i, 6)) {
      var s0, s1 := SubN(c0, i, 6), SubN(c1, i, 6);
      SubNTall(c1, i, 6);
      LeafIsTall0(s1);
      UnmarkedSub(c0, i, 6);
      assert Settled(mode, s0, s1) && ReuseSlotOK(o, c0, c1, i);
      assert Rebuild(o, c1).slots[i] == RebuildSlot(o, c1, i);
      assert TracksSlot(o.t.slots[i], s0);
      if IsLeaf(s1) {
        ConstLeaf(s1, s1.ext);
      } else if MarkedBelow(s1) {
        SettledSlots(mode, s0, s1);
        RebuildTracks(mode, o.t.slots[i], s0, s1);
        CompressTracks(Rebuild(o.t.slots[i], s1), s1);
      } else {
        KeptSame(mode, s0, s1);
        SameBelowTracks(o.t.slots[i], s0, s1);
      }
    }
  }

  // ----- adding a route

  /** The slots of the block that holds the updated node. */
  lemma TowardSlots(mode: Mode, c0: Cur, c1: Cur, prefix: u32, len: nat, depth: nat, route: Option<u16>)
    requires depth <= len <= 32 && len <= depth + 6
    requires Toward(mode, c0, c1, Top(prefix, len), len - depth, route)
    ensures SlotsSettled(mode, c0, c1)
  {
    forall i | 0 <= i < 64 ensures Settled(mode, SubN(c0, i, 6), SubN(c1, i, 6)) {
      TowardSettles(mode, c0, c1, Top(prefix, len), len - depth, route, i, 6);
    }
  }

  /** With no mark below it after an add, a position still in use is unchanged. */
  lemma AddReuse(c0: Cur, c1: Cur)
    requires Settled(Adding, c0, c1) && !IsLeaf(c1) && !MarkedBelow(c1)
    ensures c1 == c0
  {}

  lemma {:induction false} AddReuseOK(o: Slot, c0: Cur, c1: Cur)
    requires UnmarkedAt(c0) && SlotsSettled(Adding, c0, c1)
    ensures ReuseOK(o, c0, c1)
    decreases o
  {
    if o.Kid? && |o.t.slots| == 64 {
      forall i | 0 <= i < 64 ensures ReuseSlotOK(o, c0, c1, i) {
        var s0, s1 := SubN(c0, i, 6), SubN(c1, i, 6);
        assert Settled(Adding, s0, s1);
        UnmarkedSub(c0, i, 6);
        if !IsLeaf(s1) && !MarkedBelow(s1) { AddReuse(s0, s1); }
        SettledSlots(Adding, s0, s1);
        AddReuseOK(o.t.slots[i], s0, s1);
      }
    }
  }

  // ----- the path to the updated block

  lemma BitOfMod(x: nat, n: nat, k: nat)
    requires k < n
    ensures Bit(x % Pow2(n), k) == Bit(x, k)
  {
    AndMask(x, n);
    BitOfAnd(x, Pow2(n) - 1, k);
    BitOfMask(n, k);
  }

  lemma BitOfChunk(addr: u32, s: nat, n: nat, k: nat)
    requires s + n <= 64 && k < n
    ensures Bit(Chunk(addr, s, n), k) == Bit(addr * 0x1_0000_0000, 64 - (s + n) + k)
  {
    ChunkIsMod(addr, s, n);
    BitOfMod(Top(addr, s + n), n, k);
    BitOfShr(addr * 0x1_0000_0000, 64 - (s + n), k);
  }

  /** A stride chunk of the prefix is on the path to the prefix, and no other chunk is. */
  lemma ChunkOnPath(prefix: u32, len: nat, d: nat, m: nat, j: nat)
    requires d + m <= len <= 32 && j < Pow2(m)
    ensures OnPath(Top(prefix, len), len - d, j, m) <==> j == Chunk(prefix, d, m)
  {
    var idx := Chunk(prefix, d, m);
    forall k | 0 <= k < m ensures Bit(idx, k) == Bit(Top(prefix, len), len - d - m + k) {
      BitOfChunk(prefix, d, m, k);
      BitOfShr(prefix * 0x1_0000_0000, 64 - len, len - d - m + k);
    }
    if OnPath(Top(prefix, len), len - d, j, m) { SameDigits(j, idx, m); }
  }

  /** Along the path to the updated block no slot is reused wrongly. */
  ghost predicate ReusePath(o: Slot, c0: Cur, c1: Cur, prefix: u32, len: nat, depth: nat)
    requires len <= 32
    decreases 64 - depth
  {
    if o.Leaf? || len <= depth + 6 || |o.t.slots| != 64 then ReuseOK(o, c0, c1)
    else
      var idx := Chunk(prefix, depth, 6);
      assert Pow2(6) == 64;
      ReusePath(o.t.slots[idx], SubN(c0, idx, 6), SubN(c1, idx, 6), prefix, len, depth + 6)
  }

  lemma {:induction false} AddReusePath(o: Slot, c0: Cur, c1: Cur, prefix: u32, len: nat, depth: nat, v: Option<u16>)
    requires depth <= len <= 32 && UnmarkedAt(c0)
    requires Toward(Adding, c0, c1, Top(prefix, len), len - depth, v)
    ensures ReusePath(o, c0, c1, prefix, len, depth)
    decreases 64 - depth
  {
    if o.Kid? && |o.t.slots| == 64 {
      if len <= depth + 6 {
        TowardSlots(Adding, c0, c1, prefix, len, depth, v);
        AddReuseOK(o, c0, c1);
      } else {
        var idx := Chunk(prefix, depth, 6);
        assert Pow2(6) == 64;
        ChunkOnPath(prefix, len, depth, 6, idx);
        TowardSub(Adding, c0, c1, Top(prefix, len), len - depth, v, idx, 6);
        UnmarkedSub(c0, idx, 6);
        AddReusePath(o.t.slots[idx], SubN(c0, idx, 6), SubN(c1, idx, 6), prefix, len, depth + 6, v);
      }
    }
  }

  /** On the way to the updated node the radix tree continues. */
  lemma TowardNotLeaf(mode: Mode, c0: Cur, c1: Cur, i: nat, n: nat, route: Option<u16>)
    requires n > 0 && Toward(mode, c0, c1, i, n, route)
    ensures !IsLeaf(c1)
  {}

  /** The refreshed node agrees with the new radix tree. */
  lemma {:induction false} RefreshTracks(mode: Mode, o: Slot, c0: Cur, c1: Cur, prefix: u32, len: nat, depth: nat,
                                         route: Option<u16>)
    requires depth <= len <= 32
    requires o.Kid? ==> Tracks(o.t, c0)
    requires UnmarkedAt(c0) && Toward(mode, c0, c1, Top(prefix, len), len - depth, route)
    requires ReusePath(o, c0, c1, prefix, len, depth)
    ensures Tracks(Refresh(o, c1, prefix, len, depth), c1)
    decreases 64 - depth
  {
    if o.Leaf? {
      FreshTracks(o.v, c1);
    } else if len <= depth + 6 {
      TowardSlots(mode, c0, c1, prefix, len, depth, route);
      RebuildTracks(mode, o, c0, c1);
    } else {
      UnmarkedSub(c0, Chunk(prefix, depth, 6), 6);
      var idx := Chunk(prefix, depth, 6);
      assert Pow2(6) == 64;
      ChunkOnPath(prefix, len, depth, 6, idx);
      var s0, s1 := SubN(c0, idx, 6), SubN(c1, idx, 6);
      assert TracksSlot(o.t.slots[idx], s0);
      TowardSub(mode, c0, c1, Top(prefix, len), len - depth, route, idx, 6);
      RefreshTracks(mode, o.t.slots[idx], s0, s1, prefix, len, depth + 6, route);
      TowardNotLeaf(mode, s0, s1, Top(prefix, len), len - depth - 6, route);
      CompressTracks(Refresh(o.t.slots[idx], s1, prefix, len, depth + 6), s1);
      var t := Refresh(o, c1, prefix, len, depth);
      forall i | 0 <= i < 64 ensures TracksSlot(t.slots[i], SubN(c1, i, 6)) {
        if i != idx {
          ChunkOnPath(prefix, len, depth, 6, i);
          TowardSub(mode, c0, c1, Top(prefix, len), len - depth, route, i, 6);
          assert TracksSlot(o.t.slots[i], SubN(c0, i, 6));
        }
      }
    }
  }

  /** An update strictly below a leaf that recompresses to one leaf gives the old next hop:
      the early exit of the update on an unchanged leaf vector loses nothing. */
  lemma LeafKept(mode: Mode, c0: Cur, c1: Cur, i: nat, n: nat, route: Option<u16>, v: u16, w: u16)
    requires n > 0 && Toward(mode, c0, c1, i, n, route)
    requires Const(c0, v) && Const(c1, w)
    ensures v == w
  {
    var b := !Bit(i, n - 1);
    TowardDown(mode, c0, c1, i, n, route, b);
    ConstSplit(c0, v);
    ConstSplit(c1, w);
    var c := Down(c0, b);
    UniformUnique(c.left, c.ext, v, w);
  }

  // ----- changing or deleting a route: exactly when the reuse test is right

  lemma ChangeReuse(c0: Cur, c1: Cur, b: bool)
    requires Settled(Changing, c0, c1) && UnmarkedAt(c0) && !IsLeaf(c1) && !MarkedBelow(c1)
    ensures Down(c0, b) != Down(c1, b) ==>
      IsLeaf(Down(c0, b)) && IsLeaf(Down(c1, b)) && Down(c0, b).ext != Down(c1, b).ext
  {}

  /** The next hop that a stored slot gives for an address, d bits down. */
  function Look(s: Slot, addr: u32, d: nat): u16
    decreases s
  {
    match s
    case Leaf(v) => v
    case Kid(t) =>
      if d + 6 > 64 then 0
      else
        var i := Chunk(addr, d, 6);
        if i < |t.slots| then Look(t.slots[i], addr, d + 6) else 0
  }

  lemma LookCompress(t: Trie, addr: u32, d: nat)
    requires d + 6 <= 64
    ensures Look(Compress(t), addr, d) == Look(Kid(t), addr, d)
  {
    assert Pow2(6) == 64;
  }

  /** The depths at which the 64-way nodes stand. */
  predicate NodeDepth(d: nat) { d == 18 || d == 24 || d == 30 }

  lemma WalkTall(root: Cur, addr: u32, d: nat)
    requires d <= 64 && Tall(root) <= 32
    ensures Tall(Walk(root, addr, d)) <= if d <= 32 then 32 - d else 0
  {
    SubNTall(root, Top(addr, d), d);
  }

  /** A node that agrees with the radix tree answers every lookup with its longest match, and
      no walk passes more than the three node depths. */
  lemma {:induction false} TracksLook(s: Slot, root: Cur, addr: u32, d: nat)
    requires NodeDepth(d) && Tall(root) <= 32
    requires TracksEntry(s, Walk(root, addr, d))
    ensures Look(s, addr, d) == Val(root, addr)
    decreases s
  {
    match s
    case Leaf(v) => ConstVal(root, addr, d, v);
    case Kid(t) =>
      var i := Chunk(addr, d, 6);
      assert Pow2(6) == 64;
      WalkStep(root, addr, d, 6);
      assert TracksSlot(t.slots[i], Walk(root, addr, d + 6));
      if t.slots[i].Leaf? {
        ConstVal(root, addr, d + 6, t.slots[i].v);
      } else {
        WalkTall(root, addr, d + 6);
        LeafIsTall0(Walk(root, addr, d + 6));
        TracksLook(t.slots[i], root, addr, d + 6);
      }
  }

  // ----- a wrongly reused slot is visible to lookup

  lemma AddrAt(j: nat, d: nat) returns (a: u32)
    requires d <= 32 && j < Pow2(d)
    ensures Top(a, d) == j
  {
    var p := Pow2(32 - d);
    a := AddrBound(j, d);
    TopAt32(a);
    ShrIsDiv(a, 32 - d);
    Quotient(a, p, j, 0);
  }

  lemma AddrBound(j: nat, d: nat) returns (a: u32)
    requires d <= 32 && j < Pow2(d)
    ensures a == j * Pow2(32 - d)
  {
    hide Pow2;
    Pow2At64();
    PowersAdd(d, 32 - d);
    MulMonotone(j + 1, Pow2(d), Pow2(32 - d));
    Distribute(j + 1, 1, Pow2(32 - d));
    a := j * Pow2(32 - d);
  }

  lemma TopSplit(a: u32, d: nat, n: nat, j: nat, i: nat)
    requires d + n <= 64 && i < Pow2(n) && Top(a, d + n) == j * Pow2(n) + i
    ensures Top(a, d) == j && Chunk(a, d, n) == i
  {
    TopStep(a, d, n);
    Remainder(Top(a, d + n), Pow2(n), j, i);
    Remainder(Top(a, d + n), Pow2(n), Top(a, d), Chunk(a, d, n));
  }

  lemma IndexBound(j: nat, d: nat, i: nat, n: nat)
    requires j < Pow2(d) && i < Pow2(n)
    ensures j * Pow2(n) + i < Pow2(d + n)
  {
    PowersAdd(d, n);
    MulMonotone(j + 1, Pow2(d), Pow2(n));
    Distribute(j + 1, 1, Pow2(n));
  }

  lemma TopSplit6(a: u32, d: nat, j: nat, i: nat)
    requires d + 6 <= 64 && i < 64 && Top(a, d + 6) == 64 * j + i
    ensures Top(a, d) == j && Chunk(a, d, 6) == i
  {
    Pow2At6();
    TopSplit(a, d, 6, j, i);
  }

  /** Slot i of the node at position j of depth d. */
  lemma SlotPosition(root: Cur, j: nat, d: nat, i: nat)
    requires j < Pow2(d) && i < 64 && Tall(root) <= 32 && d <= 32
    ensures SubN(SubN(root, j, d), i, 6) == SubN(root, 64 * j + i, d + 6)
    ensures 64 * j + i < Pow2(d + 6)
    ensures !IsLeaf(SubN(root, 64 * j + i, d + 6)) ==> d + 6 < 32
  {
    hide Pow2, SubN;
    Pow2At6();
    SubNCompose(root, j, d, i, 6);
    IndexBound(j, d, i, 6);
    SubNTall(root, 64 * j + i, d + 6);
    LeafIsTall0(SubN(root, 64 * j + i, d + 6));
  }

  /** The leading bit of a six-bit chunk is the next address bit. */
  lemma HalfOfChunk(a: u32, d: nat)
    requires d + 6 <= 64
    ensures Bit(Chunk(a, d, 6), 5) == (Chunk(a, d, 1) == 1)
  {
    BitOfChunk(a, d, 6, 5);
    BitOfChunk(a, d, 1, 0);
    Pow2At6();
  }

  /** An address through one half of the position j of depth d. */
  lemma HalfAddress(root: Cur, j: nat, d: nat, b: bool) returns (a: u32)
    requires d < 32 && j < Pow2(d)
    ensures Top(a, d) == j && Walk(root, a, d + 1) == Down(SubN(root, j, d), b)
    ensures Bit(Chunk(a, d, 6), 5) == b && Chunk(a, d, 6) < 64
  {
    var h := 2 * j + (if b then 1 else 0);
    Doubling(d);
    a := AddrAt(h, d + 1);
    Pow2At6();
    TopSplit(a, d, 1, j, h % 2);
    HalfOfChunk(a, d);
  }

  lemma HalfLook(s: Slot, s0: Cur, a: u32, d: nat, b: bool)
    requires d + 6 <= 64 && TracksSlot(s, s0) && IsLeaf(Down(s0, b))
    requires Bit(Chunk(a, d, 6), 5) == b && Chunk(a, d, 6) < 64
    ensures Look(s, a, d) == Down(s0, b).ext
  {
    hide Chunk, Bit, Const, SubN;
    ConstLeaf(Down(s0, b), Down(s0, b).ext);
    match s
    case Leaf(v) =>
      ConstSplit(s0, v);
      ConstLeaf(Down(s0, b), v);
    case Kid(t) =>
      var i := Chunk(a, d, 6);
      SubNHead(s0, i, 5);
      SubNLeaf(Down(s0, b), i, 5);
      assert TracksSlot(t.slots[i], SubN(s0, i, 6));
      if t.slots[i].Leaf? { ConstLeaf(Down(s0, b), t.slots[i].v); }
  }

  /** A slot kept over a missing half whose inherited route changed gives a wrong answer there. */
  lemma StaleSlot(s: Slot, s0: Cur, s1: Cur, root: Cur, j: nat, d: nat) returns (a: u32)
    requires d < 32 && j < Pow2(d) && s1 == SubN(root, j, d) && Tall(root) <= 32
    requires Settled(Changing, s0, s1) && UnmarkedAt(s0) && !IsLeaf(s1) && !MarkedBelow(s1)
    requires TracksSlot(s, s0) && StaleHalf(s0, s1)
    ensures Top(a, d) == j && Look(s, a, d) != Val(root, a)
  {
    KeptSame(Changing, s0, s1);
    var b := Down(s0, true) != Down(s1, true);
    ChangeReuse(s0, s1, b);
    hide Chunk, Bit, Const, SubN, Top, TracksSlot, Settled, Down;
    a := HalfAddress(root, j, d, b);
    ConstLeaf(Down(s1, b), Down(s1, b).ext);
    ConstVal(root, a, d + 1, Down(s1, b).ext);
    HalfLook(s, s0, a, d, b);
  }

  lemma LookSlot(t: Trie, a: u32, d: nat, i: nat)
    requires |t.slots| == 64 && i < 64 && d + 6 <= 64 && Chunk(a, d, 6) == i
    ensures Look(Kid(t), a, d) == Look(t.slots[i], a, d + 6)
  {}

  lemma {:induction false} StaleRebuild(o: Slot, c0: Cur, c1: Cur, root: Cur, j: nat, d: nat) returns (a: u32)
    requires NodeDepth(d) && j < Pow2(d) && c1 == SubN(root, j, d) && Tall(root) <= 32
    requires o.Kid? && Tracks(o.t, c0) && UnmarkedAt(c0) && SlotsSettled(Changing, c0, c1)
    requires !ReuseOK(o, c0, c1)
    ensures Top(a, d) == j && Look(Kid(Rebuild(o, c1)), a, d) != Val(root, a)
    decreases o
  {
    hide Chunk, Const, SubN, Top, Settled, Rebuild, Look, Val, SameBelow, Tall, Pow2, Bit, Degenerate, IsLeaf,
         UnmarkedAt;
    var i :| 0 <= i < 64 && !ReuseSlotOK(o, c0, c1, i);
    var s0, s1 := SubN(c0, i, 6), SubN(c1, i, 6);
    assert TracksSlot(o.t.slots[i], s0) && Settled(Changing, s0, s1);
    UnmarkedSub(c0, i, 6);
    SlotPosition(root, j, d, i);
    RebuildAt(o, c1, i);
    LeafReusable(o.t.slots[i], s0, s1);
    if MarkedBelow(s1) {
      SettledSlots(Changing, s0, s1);
      a := StaleRebuild(o.t.slots[i], s0, s1, root, 64 * j + i, d + 6);
      LookCompress(Rebuild(o.t.slots[i], s1), a, d + 6);
    } else {
      a := StaleSlot(o.t.slots[i], s0, s1, root, 64 * j + i, d + 6);
    }
    TopSplit6(a, d, j, i);
    LookSlot(Rebuild(o, c1), a, d, i);
  }

  lemma RebuildAt(o: Slot, c: Cur, i: nat)
    requires i < 64
    ensures Rebuild(o, c).slots[i] == RebuildSlot(o, c, i)
  {}

  lemma {:induction false} StaleRefresh(o: Slot, c0: Cur, c1: Cur, prefix: u32, len: nat, depth: nat,
                                        route: Option<u16>, root: Cur) returns (a: u32)
    requires NodeDepth(depth) && depth <= len <= 32 && Tall(root) <= 32 && c1 == Walk(root, prefix, depth)
    requires o.Kid? && Tracks(o.t, c0) && UnmarkedAt(c0)
    requires Toward(Changing, c0, c1, Top(prefix, len), len - depth, route)
    requires !ReusePath(o, c0, c1, prefix, len, depth)
    ensures Top(a, depth) == Top(prefix, depth)
    ensures Look(Kid(Refresh(o, c1, prefix, len, depth)), a, depth) != Val(root, a)
    decreases o
  {
    hide Const, SubN, Top, Settled, Rebuild, Look, Val, SameBelow, Tall, Toward, Tracks, ReuseOK;
    TopBound(prefix, depth);
    TracksSize(o.t, c0);
    if len <= depth + 6 {
      TowardSlots(Changing, c0, c1, prefix, len, depth, route);
      a := StaleRebuild(o, c0, c1, root, Top(prefix, depth), depth);
    } else {
      var idx := Chunk(prefix, depth, 6);
      Pow2At6();
      ChunkOnPath(prefix, len, depth, 6, idx);
      var s0, s1 := SubN(c0, idx, 6), SubN(c1, idx, 6);
      TracksAt(o.t, c0, idx);
      TowardSub(Changing, c0, c1, Top(prefix, len), len - depth, route, idx, 6);
      UnmarkedSub(c0, idx, 6);
      WalkStep(root, prefix, depth, 6);
      LeafReusable(o.t.slots[idx], s0, s1);
      a := StaleRefresh(o.t.slots[idx], s0, s1, prefix, len, depth + 6, route, root);
      LookCompress(Refresh(o.t.slots[idx], s1, prefix, len, depth + 6), a, depth + 6);
      TopStep(prefix, depth, 6);
      TopSplit6(a, depth, Top(prefix, depth), idx);
      LookSlot(Refresh(o, c1, prefix, len, depth), a, depth, idx);
    }
  }

  lemma TracksSize(t: Trie, c: Cur)
    requires Tracks(t, c)
    ensures |t.slots| == 64
  {}

  lemma TracksAt(t: Trie, c: Cur, i: nat)
    requires Tracks(t, c) && i < 64
    ensures TracksSlot(t.slots[i], SubN(c, i, 6))
  {}

  lemma LeafReusable(o: Slot, c0: Cur, c1: Cur)
    ensures o.Leaf? ==> ReuseOK(o, c0, c1)
    ensures forall prefix: u32, len, depth :: o.Leaf? && len <= 32 ==> ReusePath(o, c0, c1, prefix, len, depth)
  {}

  lemma TopBound(a: u32, d: nat)
    requires d <= 32
    ensures Top(a, d) < Pow2(d)
  {
    hide Pow2;
    Pow2At64();
    TopAt32(a);
    ShrBound(a, 32 - d, 32);
  }

  /** A position without radix nodes below it becomes a single next hop. */
  lemma LeafRebuild(o: Slot, c: Cur)
    requires IsLeaf(c)
    ensures Compress(Rebuild(o, c)) == Leaf(c.ext)
  {
    forall i | 0 <= i < 64 ensures Rebuild(o, c).slots[i] == Leaf(c.ext) {
      SubNLeaf(c, i, 6);
      assert Rebuild(o, c).slots[i] == RebuildSlot(o, c, i);
    }
  }
}
