/** What every update keeps about the shape of the fast form, also where an outdated slot was kept;
    and why a right fast form is a function of the radix tree alone. */
module Neatness {
  import opened Bits
  import opened Rib
  import opened Trie
  import opened TrieUpdate

  // ----- the shape

  /** All next hops are below n, a node stands only where the radix tree goes on, and no node is
      left with a single next hop. */
  ghost predicate Neat(s: Slot, c: Cur, n: nat)
    decreases s, 0
  {
    match s
    case Leaf(v) => v < n
    case Kid(t) => !IsLeaf(c) && !Degenerate(t) && NeatNode(t, c, n)
  }

  ghost predicate NeatNode(t: Trie, c: Cur, n: nat)
    decreases t, 1
  {
    |t.slots| == 64 && forall i :: 0 <= i < 64 ==> Neat(t.slots[i], SubN(c, i, 6), n)
  }

  /** A direct-pointing entry: its top node may be left with a single next hop. */
  ghost predicate NeatEntry(s: Slot, c: Cur, n: nat) {
    match s
    case Leaf(v) => v < n
    case Kid(t) => !IsLeaf(c) && NeatNode(t, c, n)
  }

  lemma NeatIsEntry(s: Slot, c: Cur, n: nat)
    requires Neat(s, c, n)
    ensures NeatEntry(s, c, n)
  {}

  // ----- positions of a growing tree

  predicate CurExtends(c0: Cur, c1: Cur) {
    Extends(c0.left, c1.left) && Extends(c0.right, c1.right)
  }

  predicate CurBelow(c: Cur, n: nat) {
    c.ext < n && HopsBelow(c.left, n) && HopsBelow(c.right, n)
  }

  lemma {:induction false} SubNExtends(c0: Cur, c1: Cur, i: nat, n: nat)
    requires CurExtends(c0, c1)
    ensures CurExtends(SubN(c0, i, n), SubN(c1, i, n))
    ensures !IsLeaf(SubN(c0, i, n)) ==> !IsLeaf(SubN(c1, i, n))
  {
    if n > 0 { SubNExtends(c0, c1, i / 2, n - 1); }
  }

  lemma {:induction false} SubNBelow(c: Cur, i: nat, n: nat, m: nat)
    requires CurBelow(c, m)
    ensures CurBelow(SubN(c, i, n), m)
  {
    if n > 0 { SubNBelow(c, i / 2, n - 1, m); }
  }

  // ----- kept by every update

  lemma {:induction false} NeatGrows(s: Slot, c0: Cur, c1: Cur, n0: nat, n1: nat)
    requires NeatEntry(s, c0, n0) && CurExtends(c0, c1) && n0 <= n1
    ensures NeatEntry(s, c1, n1)
    ensures Neat(s, c0, n0) ==> Neat(s, c1, n1)
    decreases s
  {
    hide Degenerate, SubN;
    if s.Kid? {
      forall i | 0 <= i < 64 ensures Neat(s.t.slots[i], SubN(c1, i, 6), n1) {
        SubNExtends(c0, c1, i, 6);
        NeatIsEntry(s.t.slots[i], SubN(c0, i, 6), n0);
        NeatGrows(s.t.slots[i], SubN(c0, i, 6), SubN(c1, i, 6), n0, n1);
      }
      if !IsLeaf(c0) { assert !IsLeaf(c1); }
    }
  }

  lemma NeatCompress(t: Trie, c: Cur, n: nat)
    requires NeatNode(t, c, n)
    ensures !IsLeaf(c) ==> NeatEntry(Compress(t), c, n) && Neat(Compress(t), c, n)
  {
    if Degenerate(t) { assert Neat(t.slots[0], SubN(c, 0, 6), n); }
  }

  lemma {:induction false} NeatRebuild(o: Slot, c0: Cur, c1: Cur, n: nat)
    requires o.Kid? ==> NeatNode(o.t, c0, n)
    requires CurExtends(c0, c1) && CurBelow(c1, n)
    ensures NeatNode(Rebuild(o, c1), c1, n)
    decreases Tall(c1)
  {
    hide Degenerate, SubN, Compress, CurExtends, CurBelow, Tall, IsLeaf;
    forall i | 0 <= i < 64 ensures Neat(Rebuild(o, c1).slots[i], SubN(c1, i, 6), n) {
      var s0, s1 := SubN(c0, i, 6), SubN(c1, i, 6);
      SubNTall(c1, i, 6);
      LeafIsTall0(s1);
      SubNExtends(c0, c1, i, 6);
      SubNBelow(c1, i, 6, n);
      RebuildAt(o, c1, i);
      if o.Kid? { assert Neat(o.t.slots[i], s0, n); }
      if IsLeaf(s1) {
        BelowExt(s1, n);
      } else if o.Leaf? || MarkedBelow(s1) {
        NeatRebuild(Past(o, i), s0, s1, n);
        NeatCompress(Rebuild(Past(o, i), s1), s1, n);
      } else {
        NeatIsEntry(o.t.slots[i], s0, n);
        NeatGrows(o.t.slots[i], s0, s1, n, n);
      }
    }
  }

  /** A rebuilt entry is a node only where the radix tree goes on. */
  lemma NeatRoot(o: Slot, c: Cur, n: nat)
    requires NeatNode(Rebuild(o, c), c, n) && CurBelow(c, n)
    ensures NeatEntry(Compress(Rebuild(o, c)), c, n)
  {
    hide Rebuild, Degenerate, CurBelow, Compress;
    if IsLeaf(c) {
      LeafRebuild(o, c);
      BelowExt(c, n);
    } else {
      NeatCompress(Rebuild(o, c), c, n);
    }
  }

  lemma BelowExt(c: Cur, n: nat)
    requires CurBelow(c, n)
    ensures c.ext < n
  {}

  lemma {:induction false} NeatRefresh(mode: Mode, o: Slot, c0: Cur, c1: Cur, prefix: u32, len: nat, depth: nat,
                                       route: Option<u16>, n: nat)
    requires depth <= len <= 32 && (o.Kid? ==> NeatNode(o.t, c0, n))
    requires CurExtends(c0, c1) && CurBelow(c1, n)
    requires Toward(mode, c0, c1, Top(prefix, len), len - depth, route)
    ensures NeatNode(Refresh(o, c1, prefix, len, depth), c1, n)
    decreases 64 - depth
  {
    hide Degenerate, SubN, Compress, CurExtends, CurBelow, IsLeaf, Toward, Top, Chunk, Rebuild;
    if o.Leaf? || len <= depth + 6 {
      NeatRebuild(o, c0, c1, n);
    } else {
      Pow2At6();
      var idx := Chunk(prefix, depth, 6);
      var s0, s1 := SubN(c0, idx, 6), SubN(c1, idx, 6);
      ChunkOnPath(prefix, len, depth, 6, idx);
      TowardSub(mode, c0, c1, Top(prefix, len), len - depth, route, idx, 6);
      TowardNotLeaf(mode, s0, s1, Top(prefix, len), len - depth - 6, route);
      assert Neat(o.t.slots[idx], s0, n);
      SubNExtends(c0, c1, idx, 6);
      SubNBelow(c1, idx, 6, n);
      NeatRefresh(mode, o.t.slots[idx], s0, s1, prefix, len, depth + 6, route, n);
      NeatCompress(Refresh(o.t.slots[idx], s1, prefix, len, depth + 6), s1, n);
      var t := Refresh(o, c1, prefix, len, depth);
      forall i | 0 <= i < 64 ensures Neat(t.slots[i], SubN(c1, i, 6), n) {
        if i != idx {
          assert Neat(o.t.slots[i], SubN(c0, i, 6), n);
          SubNExtends(c0, c1, i, 6);
          NeatIsEntry(o.t.slots[i], SubN(c0, i, 6), n);
          NeatGrows(o.t.slots[i], SubN(c0, i, 6), SubN(c1, i, 6), n, n);
        }
      }
    }
  }

  // ----- one fast form for one radix tree

  lemma ConstUnique(c: Cur, v: u16, w: u16)
    requires Const(c, v) && Const(c, w)
    ensures v == w
  {
    UniformUnique(c.left, c.ext, v, w);
  }

  /** A node below which every address has the next hop v has 64 slots v. */
  lemma {:induction false} ConstNode(t: Trie, c: Cur, v: u16, n: nat)
    requires Tracks(t, c) && NeatNode(t, c, n) && Const(c, v)
    ensures Degenerate(t) && t.slots[0] == Leaf(v)
    decreases t
  {
    forall i | 0 <= i < 64 ensures t.slots[i] == Leaf(v) {
      ConstDown(c, v, i, 6);
      assert TracksSlot(t.slots[i], SubN(c, i, 6)) && Neat(t.slots[i], SubN(c, i, 6), n);
      match t.slots[i]
      case Leaf(w) => ConstUnique(SubN(c, i, 6), v, w);
      case Kid(u) => ConstNode(u, SubN(c, i, 6), v, n);
    }
  }

  /** Two neat slots that agree with the same radix position are equal. */
  lemma {:induction false} NeatUnique(a: Slot, b: Slot, c: Cur, n: nat)
    requires TracksSlot(a, c) && TracksSlot(b, c) && Neat(a, c, n) && Neat(b, c, n)
    ensures a == b
    decreases a
  {
    hide Const, Degenerate, SubN, IsLeaf;
    match a
    case Leaf(v) =>
      if b.Leaf? { ConstUnique(c, v, b.v); } else { ConstNode(b.t, c, v, n); }
    case Kid(t) =>
      if b.Leaf? {
        ConstNode(t, c, b.v, n);
      } else {
        NodeUnique(t, b.t, c, n);
      }
  }

  lemma {:induction false} NodeUnique(t: Trie, u: Trie, c: Cur, n: nat)
    requires Tracks(t, c) && Tracks(u, c) && NeatNode(t, c, n) && NeatNode(u, c, n)
    ensures t == u
    decreases t
  {
    hide Const, Degenerate, SubN, IsLeaf;
    forall i | 0 <= i < 64 ensures t.slots[i] == u.slots[i] {
      assert TracksSlot(t.slots[i], SubN(c, i, 6)) && TracksSlot(u.slots[i], SubN(c, i, 6));
      assert Neat(t.slots[i], SubN(c, i, 6), n) && Neat(u.slots[i], SubN(c, i, 6), n);
      NeatUnique(t.slots[i], u.slots[i], SubN(c, i, 6), n);
    }
    assert t.slots == u.slots;
  }

  lemma FreshNeat(c: Cur, n: nat)
    requires CurBelow(c, n)
    ensures NeatNode(Fresh(c), c, n)
  {
    ExtendsSelf(c.left);
    ExtendsSelf(c.right);
    NeatRebuild(Leaf(0), c, c, n);
  }

  /** A neat node that agrees with the radix tree is the node built from scratch. */
  lemma TracksIsFresh(t: Trie, c: Cur, n: nat)
    requires Tracks(t, c) && NeatNode(t, c, n) && CurBelow(c, n)
    ensures t == Fresh(c)
  {
    hide Tracks, NeatNode, CurBelow;
    FreshNeat(c, n);
    FreshTracks(0, c);
    NodeUnique(t, Fresh(c), c, n);
  }

  /** Reusing what the test of the update keeps gives the same node as building it from scratch. */
  lemma RebuildIsFresh(mode: Mode, o: Slot, c0: Cur, c1: Cur, n: nat)
    requires o.Kid? ==> Tracks(o.t, c0) && NeatNode(o.t, c0, n)
    requires UnmarkedAt(c0) && SlotsSettled(mode, c0, c1) && ReuseOK(o, c0, c1)
    requires CurExtends(c0, c1) && CurBelow(c1, n)
    ensures Rebuild(o, c1) == Fresh(c1)
  {
    hide Tracks, NeatNode, CurBelow, CurExtends, ReuseOK, SlotsSettled, UnmarkedAt;
    RebuildTracks(mode, o, c0, c1);
    NeatRebuild(o, c0, c1, n);
    TracksIsFresh(Rebuild(o, c1), c1, n);
  }
}
