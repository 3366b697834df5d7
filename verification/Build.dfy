/** Building the 64-way nodes of a radix block: _update_inode and _update_inode_chunk. */
module Build {
  import opened Bits
  import opened BuddyModel
  import opened Rib
  import opened Trie
  import opened Radix
  import opened Triangle
  import opened Store
  import opened Sharing
  import opened Trace
  import opened Cost
  import opened PoptrieState

  // ----- collecting the leaves and children of a node

  lemma {:induction false} RunsExtend(ts: seq<TSlot>, s: TSlot, n: nat)
    requires n <= |ts|
    ensures Runs(ts + [s], n) == Runs(ts, n)
  {
    if n > 0 { RunsExtend(ts, s, n - 1); }
  }

  lemma {:induction false} KidNodesExtend(ts: seq<TSlot>, s: TSlot, n: nat)
    requires n <= |ts|
    ensures KidNodes(ts + [s], n) == KidNodes(ts, n)
  {
    if n > 0 { KidNodesExtend(ts, s, n - 1); }
  }

  lemma RunsPush(ts: seq<TSlot>, s: TSlot)
    ensures forall j :: 0 <= j < |ts| ==> StartsRun(ts + [s], j) == StartsRun(ts, j)
    ensures StartsRun(ts + [s], |ts|) <==>
        s.TLeaf? && (Runs(ts, |ts|) == [] || Runs(ts, |ts|)[|Runs(ts, |ts|)| - 1] != s.v)
    ensures Runs(ts + [s], |ts| + 1) == Runs(ts, |ts|) + (if StartsRun(ts + [s], |ts|) then [s.v] else [])
  {
    RunsExtend(ts, s, |ts|);
    forall j | 0 <= j < |ts| ensures StartsRun(ts + [s], j) == StartsRun(ts, j) { RunsExtend(ts, s, j); }
  }

  lemma KidNodesPush(ts: seq<TSlot>, s: TSlot)
    ensures KidNodes(ts + [s], |ts| + 1) == KidNodes(ts, |ts|) + (if s.TKid? then [s.t.nd] else [])
  {
    KidNodesExtend(ts, s, |ts|);
  }

  /** leafvec, leaves and prev after the slots ts. */
  ghost predicate LeafEnc(leafvec: u64, leaves: seq<u16>, prev: int, ts: seq<TSlot>) {
    && |ts| <= 64
    && (forall j :: 0 <= j < 64 ==> Bit(leafvec, j) == (j < |ts| && StartsRun(ts, j)))
    && leaves == Runs(ts, |ts|)
    && prev == if leaves == [] then -1 else leaves[|leaves| - 1]
  }

  /** Horizontal compression: a leaf is recorded only where it differs from the leaf before it. */
  method PushLeaf(leafvec: u64, leaves: seq<u16>, prev: int, i: nat, v: u16, ghost ts: seq<TSlot>)
    returns (leafvec': u64, leaves': seq<u16>, prev': int)
    requires LeafEnc(leafvec, leaves, prev, ts) && i == |ts| < 64
    ensures LeafEnc(leafvec', leaves', prev', ts + [TLeaf(v)])
  {
    RunsPush(ts, TLeaf(v));
    hide Bit;
    leafvec', leaves', prev' := leafvec, leaves, v;
    if prev != v {
      leafvec' := VecSet(leafvec, i);
      leaves' := leaves + [v];
    }
  }

  lemma LeafEncKid(leafvec: u64, leaves: seq<u16>, prev: int, ts: seq<TSlot>, t: Tree)
    requires LeafEnc(leafvec, leaves, prev, ts) && |ts| < 64
    ensures LeafEnc(leafvec, leaves, prev, ts + [TKid(t)])
  {
    RunsPush(ts, TKid(t));
  }

  lemma LeafEncStart()
    ensures LeafEnc(0, [], -1, [])
  {
    forall j | 0 <= j < 64 ensures !Bit(0, j) { BitOfZero(j); }
  }

  lemma LeafEncDone(leafvec: u64, leaves: seq<u16>, prev: int, ts: seq<TSlot>)
    requires LeafEnc(leafvec, leaves, prev, ts) && |ts| == 64
    ensures LeafvecOK(leafvec, ts) && leaves == Runs(ts, 64)
  {}

  /** The children of the slots ts, by slot. */
  ghost predicate KidEnc(children: seq<PNode>, ts: seq<TSlot>) {
    && |ts| <= 64 && |children| == 64
    && forall j :: 0 <= j < |ts| && ts[j].TKid? ==> children[j] == ts[j].t.nd
  }

  /** The loop that copies the children into consecutive places of their block. */
  method Compact(vector: u64, children: seq<PNode>, ghost ts: seq<TSlot>) returns (items: seq<PNode>)
    requires VectorOK(vector, ts) && KidEnc(children, ts)
    ensures items == KidNodes(ts, 64)
  {
    hide Bit;
    items := [];
    var i := 0;
    while i < 64
      invariant 0 <= i <= 64
      invariant items == KidNodes(ts, i)
    {
      if VecBt(vector, i) {
        items := items + [children[i]];
      }
      i := i + 1;
    }
  }

  // ----- allocating and filling the blocks of a node

  /** The node structure nd holds ts in memory h', in blocks that h did not have. */
  ghost predicate Placed(h: Heap, h': Heap, nd: PNode, ts: seq<TSlot>) {
    && Grows(h, h') && Blocks(h') == Blocks(h) + Own(nd) && Own(nd) !! Blocks(h)
    && NodeSeen(h'.N, h'.L, nd, ts) && NodeHeld(h', nd, ts)
  }

  /** A block of the least size for the items, or NONE for no items. */
  ghost predicate PlacedNodes(h: Heap, h': Heap, base: u32, items: seq<PNode>) {
    && Grows(h, h')
    && Blocks(h') == Blocks(h) + (if base == NONE then {} else {NB(base)})
    && NB(base) !in Blocks(h)
    && Stored(h'.N, base, items) && h'.L == h.L && h'.ll == h.ll
    && (base != NONE ==> base in h'.ln && Snug(|items|, h'.ln[base]))
  }

  ghost predicate PlacedLeaves(h: Heap, h': Heap, base: u32, items: seq<u16>) {
    && Grows(h, h')
    && Blocks(h') == Blocks(h) + (if base == NONE then {} else {LB(base)})
    && LB(base) !in Blocks(h)
    && Stored(h'.L, base, items) && h'.N == h.N && h'.ln == h.ln
    && (base != NONE ==> base in h'.ll && Snug(|items|, h'.ll[base]))
  }

  lemma GrowsSelf(h: Heap)
    ensures Grows(h, h)
  {
    forall b | b in Blocks(h) ensures KeepsBlock(h, h, b) {}
  }

  lemma NoneFree(h: Heap)
    requires HeapOK(h)
    ensures NB(NONE) !in Blocks(h) && LB(NONE) !in Blocks(h)
  {
    InBlocks(h, NB(NONE));
    InBlocks(h, LB(NONE));
  }

  /** Allocate and fill the child block, when there are children. */
  method PlaceNodes(p: Poptrie, items: seq<PNode>) returns (ok: bool, base1: u32)
    requires p.Mem() && |items| <= 64
    modifies p.Foot(), p`trace
    ensures p.Mem()
    ensures ok ==> PlacedNodes(old(p.H()), p.H(), base1, items) && p.Fails() == old(p.Fails())
    ensures !ok ==> p.H() == old(p.H()) && p.Fails() > old(p.Fails())
    ensures Quiet(old(p.trace), p.trace, Blocks(old(p.H())), 1)
  {
    hide Poptrie.Mem, Grows, Arena, Write, Blocks, Quiet, Tight, Unclaimed;
    p.MemHeap();
    p.MemTrace();
    QuietSelf(p.trace, Blocks(p.H()));
    QuietLess(p.trace, p.trace, Blocks(p.H()), 0, Blocks(p.H()), 1);
    NoneFree(p.H());
    ghost var h := p.H();
    if |items| == 0 {
      GrowsSelf(h);
      return true, NONE;
    }
    var k := LevelFor(|items|);
    var a := p.AllocNodes(k);
    if a < 0 { return false, NONE; }
    p.MemHeap();
    ghost var t := p.trace;
    AllocN(h, a, k);
    FillN(h, a, k, items);
    InBlocks(h, NB(a));
    p.CopyNodes(a, items);
    BuildOn(old(p.trace), t, p.trace, Blocks(h), Blocks(h) + {NB(a)} - {NB(a)}, 1, 0);
    ok, base1 := true, a;
  }

  method PlaceLeaves(p: Poptrie, items: seq<u16>) returns (ok: bool, base0: u32)
    requires p.Mem() && |items| <= 64
    modifies p.Foot(), p`trace
    ensures p.Mem()
    ensures ok ==> PlacedLeaves(old(p.H()), p.H(), base0, items) && p.Fails() == old(p.Fails())
    ensures !ok ==> p.H() == old(p.H()) && p.Fails() > old(p.Fails())
    ensures Quiet(old(p.trace), p.trace, Blocks(old(p.H())), 1)
  {
    hide Poptrie.Mem, Grows, Arena, Write, Blocks, Quiet, Tight, Unclaimed;
    p.MemHeap();
    p.MemTrace();
    QuietSelf(p.trace, Blocks(p.H()));
    QuietLess(p.trace, p.trace, Blocks(p.H()), 0, Blocks(p.H()), 1);
    NoneFree(p.H());
    ghost var h := p.H();
    if |items| == 0 {
      GrowsSelf(h);
      return true, NONE;
    }
    var k := LevelFor(|items|);
    var a := p.AllocLeaves(k);
    if a < 0 { return false, NONE; }
    p.MemHeap();
    ghost var t := p.trace;
    AllocL(h, a, k);
    FillL(h, a, k, items);
    InBlocks(h, LB(a));
    p.CopyLeaves(a, items);
    BuildOn(old(p.trace), t, p.trace, Blocks(h), Blocks(h) + {LB(a)} - {LB(a)}, 1, 0);
    ok, base0 := true, a;
  }

  lemma PlacedBoth(h: Heap, h1: Heap, h2: Heap, nd: PNode, ts: seq<TSlot>)
    requires |ts| == 64 && VectorOK(nd.vector, ts) && LeafvecOK(nd.leafvec, ts)
    requires PlacedNodes(h, h1, nd.base1, KidNodes(ts, 64))
    requires PlacedLeaves(h1, h2, nd.base0, Runs(ts, 64))
    ensures Placed(h, h2, nd, ts)
  {
    hide VectorOK, LeafvecOK, KidNodes, Runs, Grows;
    GrowsTransitive(h, h1, h2);
  }

  // ----- _update_inode

  /** inode is the node structure of o, or -1 when there is no old node. */
  ghost predicate OldAt(h: Heap, inode: int, o: TSlot) {
    && SlotRep(h, o)
    && (o.TKid? ==> 0 <= inode < |h.N| && h.N[inode] == o.t.nd)
    && (o.TLeaf? ==> inode == -1)
  }

  lemma OldAtGrows(h: Heap, h': Heap, inode: int, o: TSlot, b: nat)
    requires OldAt(h, inode, o) && Grows(h, h')
    requires o.TKid? ==> b in h.ln && b <= inode < b + Pow2(h.ln[b])
    ensures OldAt(h', inode, o)
  {
    SlotRepGrows(h, h', o);
    if o.TKid? {
      InBlocks(h, NB(b));
      assert KeepsBlock(h, h', NB(b));
    }
  }

  /** The old node structure lies in an allocated block, so that building leaves it alone. */
  ghost predicate Anchored(h: Heap, inode: int, o: TSlot) {
    OldAt(h, inode, o) && (o.TKid? ==> exists b :: b in h.ln && b <= inode < b + Pow2(h.ln[b]))
  }

  lemma AnchoredGrows(h: Heap, h': Heap, inode: int, o: TSlot)
    requires Anchored(h, inode, o) && Grows(h, h')
    ensures Anchored(h', inode, o)
  {
    if o.TKid? {
      var b :| b in h.ln && b <= inode < b + Pow2(h.ln[b]);
      OldAtGrows(h, h', inode, o, b);
      InBlocks(h, NB(b));
      assert KeepsBlock(h, h', NB(b));
    } else {
      OldAtGrows(h, h', inode, o, 0);
    }
  }

  /** The i-th child of an anchored node is anchored where the vector rank says. */
  lemma KidAnchored(h: Heap, inode: int, o: TSlot, i: nat)
    requires Anchored(h, inode, o) && o.TKid? && i < 64
    ensures |o.t.slots| == 64 && (Bit(o.t.nd.vector, i) <==> o.t.slots[i].TKid?)
    ensures o.t.slots[i].TKid? ==>
      1 <= Rank(o.t.nd.vector, i + 1)
      && Anchored(h, o.t.nd.base1 + Rank(o.t.nd.vector, i + 1) - 1, o.t.slots[i])
    ensures o.t.slots[i].TLeaf? ==>
      1 <= Rank(o.t.nd.leafvec, i + 1) && o.t.nd.base0 + Rank(o.t.nd.leafvec, i + 1) - 1 < |h.L|
      && h.L[o.t.nd.base0 + Rank(o.t.nd.leafvec, i + 1) - 1] == o.t.slots[i].v
  {
    hide Rank, Bit, KidNodes, Runs, Rep;
    RepSize(h, o.t);
    VectorBit(h.N, h.L, o.t.nd, o.t.slots, i);
    LeafAt(h.N, h.L, o.t.nd, o.t.slots, i);
    if o.t.slots[i].TKid? {
      var b := o.t.nd.base1;
      KidPlace(h, o.t, i);
      assert b in h.ln && b <= b + Rank(o.t.nd.vector, i + 1) - 1 < b + Pow2(h.ln[b]);
    }
  }

  lemma VectorBit(N: seq<PNode>, L: seq<u16>, nd: PNode, slots: seq<TSlot>, i: nat)
    requires NodeSeen(N, L, nd, slots) && i < 64
    ensures |slots| == 64 && Bit(nd.vector, i) == slots[i].TKid?
  {}

  /** The place of a child lies within the child block. */
  lemma KidPlace(h: Heap, t: Tree, i: nat)
    requires NodeSeen(h.N, h.L, t.nd, t.slots) && NodeHeld(h, t.nd, t.slots) && i < 64 && t.slots[i].TKid?
    ensures var k := Rank(t.nd.vector, i + 1);
            && 1 <= k && t.nd.base1 + k - 1 < |h.N| && h.N[t.nd.base1 + k - 1] == t.slots[i].t.nd
            && t.nd.base1 in h.ln && k <= Pow2(h.ln[t.nd.base1])
  {
    KidAt(h.N, h.L, t.nd, t.slots, i);
    RankIsKids(t.nd.vector, t.slots, i + 1);
    KidNodesPrefix(t.slots, i + 1, 64);
  }

  lemma StripPast(o: TSlot, i: nat)
    requires i < 64 && (o.TKid? ==> |o.t.slots| == 64)
    ensures StripSlot(PastT(o, i)) == Past(StripSlot(o), i)
  {}

  /** The slot that the update makes of a radix position with children. */
  function NewSlot(x: Slot, isOld: bool, s: Cur): Slot {
    if !isOld || MarkedBelow(s) then Compress(Rebuild(x, s)) else x
  }

  /** Building on top of what is allocated has extended the memory by the slot s. */
  ghost predicate Made(h0: Heap, h: Heap, x: TSlot, s: TSlot, want: Slot) {
    SlotBuilt(h0, h, x, s) && StripSlot(s) == want
  }

  /** The result of a build step: 0 for a node, 1 for a single next hop. */
  ghost predicate Returned(ret: int, n: PNode, leaf: u16, s: TSlot) {
    (ret == 0 && s.TKid? && s.t.nd == n) || (ret == 1 && s == TLeaf(leaf))
  }

  /** _update_inode_chunk: build a child; a single next hop gives its leaf block back. */
  method UpdateInodeChunk(p: Poptrie, v: RView, inode: int,
                          ghost x: TSlot, ghost sl: Shape, ghost sr: Shape, ghost d: nat, ghost c: Cur,
                              ghost W: set<object>)
    returns (ret: int, n: PNode, leaf: u16, ghost s: TSlot)
    requires p.Mem() && Anchored(p.H(), inode, x)
    requires W !! p.Foot() && p !in W && Sees(v, sl, sr, d, c, W)
    modifies p.Foot(), p`trace
    ensures p.Mem()
    ensures ret < 0 ==> Grows(old(p.H()), p.H()) && p.Fails() > old(p.Fails())
    ensures ret >= 0 ==> p.Fails() == old(p.Fails()) && Returned(ret, n, leaf, s)
                         && Made(old(p.H()), p.H(), x, s, Compress(Rebuild(StripSlot(x), c)))
    ensures Quiet(old(p.trace), p.trace, Blocks(old(p.H())), Need(c))
    decreases Tall(c), 2
  {
    hide Poptrie.Mem, Poptrie.Fails, Poptrie.Foot, Sees, Anchored, SlotBuilt, Rebuild, Strip, Tall, Degenerate, Grows,
         Quiet, Blocks, Need;
    ghost var t;
    ret, n, leaf, t := UpdateInode(p, v, inode, x, sl, sr, d, c, W);
    s := TKid(t);
    if ret > 0 {
      ghost var h, tr := p.H(), p.trace;
      SingleLeaf(old(p.H()), h, x, t, leaf);
      p.FreeLeaves(n.base0);
      BuildOn(old(p.trace), tr, p.trace, Blocks(old(p.H())), Blocks(h) - {LB(n.base0)}, Need(c), 0);
      s := TLeaf(leaf);
    }
  }

  /** A node with a single next hop owns one leaf block, which was not there before. */
  lemma SingleLeaf(h0: Heap, h: Heap, x: TSlot, t: Tree, leaf: u16)
    requires SlotBuilt(h0, h, x, TKid(t)) && Own(t.nd) !! Blocks(h0)
    requires Degenerate(Strip(t)) && Strip(t).slots[0] == Leaf(leaf)
    ensures t.nd.base0 in h.ll && t.nd.base1 == NONE
    ensures SlotBuilt(h0, h.(ll := h.ll - {t.nd.base0}), x, TLeaf(leaf))
    ensures Blocks(h0) <= Blocks(h) - {LB(t.nd.base0)}
  {
    hide Rep, Lin, Degenerate, Strip, KidNodes, Runs, B, Shares, LeafvecOK;
    RepSize(h, t);
    DegenerateMeans(t);
    NoKids(t.slots, 64);
    NoBlocks(t.slots, 64);
    NoKidsB(t);
    var b := LB(t.nd.base0);
    assert b in Own(t.nd);
    FreeL(h, t.nd.base0);
    var h' := h.(ll := h.ll - {t.nd.base0});
    assert Blocks(h0) <= Blocks(h) - {b};
    KeepsLess(h, h', Blocks(h) - {b}, Blocks(h0));
    KeepsTransitive(h0, h, h', Blocks(h0));
  }

  lemma NoKidsB(t: Tree)
    requires SlotsB(t.slots, |t.slots|) == {}
    ensures SlotB(TKid(t)) == Own(t.nd)
  {}

  lemma {:induction false} NoBlocks(slots: seq<TSlot>, n: nat)
    requires n <= |slots| && forall i :: 0 <= i < n ==> slots[i].TLeaf?
    ensures SlotsB(slots, n) == {}
  {
    if n > 0 { NoBlocks(slots, n - 1); }
  }

  /** One slot of _update_inode whose radix position has children: rebuild it if a child is marked
      or there is no old node, else take over the old child or leaf. */
  method UpdateSlot(p: Poptrie, v: RView, inode: int, i: nat,
                    ghost o: TSlot, ghost sl: Shape, ghost sr: Shape, ghost d: nat, ghost c: Cur, ghost W: set<object>)
    returns (ret: int, child: PNode, leaf: u16, ghost s: TSlot)
    requires p.Mem() && Anchored(p.H(), inode, o) && i < 64
    requires W !! p.Foot() && p !in W && Sees(v, sl, sr, d, c, W) && !IsLeaf(c)
    modifies p.Foot(), p`trace
    ensures p.Mem()
    ensures ret < 0 ==> Grows(old(p.H()), p.H()) && p.Fails() > old(p.Fails())
    ensures ret >= 0 ==> p.Fails() == old(p.Fails()) && Returned(ret, child, leaf, s)
                         && Made(old(p.H()), p.H(), PastT(o, i), s, NewSlot(StripSlot(PastT(o, i)), o.TKid?, c))
    ensures Quiet(old(p.trace), p.trace, Blocks(old(p.H())), 2 * Posts(c))
    decreases Tall(c), 3
  {
    hide Poptrie.Mem, Poptrie.Fails, Poptrie.Foot, Sees, Anchored, Made, Rebuild, Strip, Tall, Degenerate, Grows, Bit,
         StripSlot, Quiet, Blocks, Posts;
    p.FootHeld();
    p.MemTrace();
    SeesTests(v, sl, sr, d, c, W);
    AnchoredNode(p.H(), inode, o);
    if (v.left != null && v.left.mark) || (v.right != null && v.right.mark) || inode < 0 {
      var ninode := OldChild(p, inode, i, o);
      ret, child, leaf, s := UpdateInodeChunk(p, v, ninode, PastT(o, i), sl, sr, d, c, W);
    } else {
      ret, child, leaf, s := TakeSlot(p, inode, i, o);
      QuietSelf(p.trace, Blocks(p.H()));
      QuietLess(p.trace, p.trace, Blocks(p.H()), 0, Blocks(p.H()), 2 * Posts(c));
    }
  }

  /** The node structure of the old child in slot i, or -1. */
  method OldChild(p: Poptrie, inode: int, i: nat, ghost o: TSlot) returns (ninode: int)
    requires Anchored(p.H(), inode, o) && i < 64
    ensures Anchored(p.H(), ninode, PastT(o, i))
  {
    ninode := -1;
    hide Anchored, Bit, VecBt, PopcntLs, Rank, Made, StripSlot, Poptrie.Foot;
    AnchoredNode(p.H(), inode, o);
    if inode >= 0 {
      OldSlot(p.H(), inode, o, i);
      var nd := p.nodes[inode];
      if VecBt(nd.vector, i) {
        var k := PopcntLs(nd.vector, i);
        ninode := nd.base1 + k - 1;
      }
    }
  }

  /** What the vectors of the old node say about slot i. */
  lemma OldSlot(h: Heap, inode: int, o: TSlot, i: nat)
    requires Anchored(h, inode, o) && o.TKid? && i < 64
    ensures inode >= 0 && inode < |h.N| && h.N[inode] == o.t.nd
    ensures var nd := o.t.nd; var s := PastT(o, i); var b1 := nd.base1 + Rank(nd.vector, i + 1) - 1;
            var b0 := nd.base0 + Rank(nd.leafvec, i + 1) - 1;
            if Bit(nd.vector, i)
            then s.TKid? && 0 <= b1 < |h.N| && h.N[b1] == s.t.nd && Anchored(h, b1, s) && Made(h, h, s, s, StripSlot(s))
            else s.TLeaf? && 0 <= b0 < |h.L| && h.L[b0] == s.v && Anchored(h, -1, s) && Made(h, h, s, s, StripSlot(s))
  {
    hide Anchored, Bit, Rank, Made, StripSlot;
    KidAnchored(h, inode, o, i);
    AnchoredNode(h, inode, o);
    var s := o.t.slots[i];
    if s.TKid? {
      AnchoredNode(h, o.t.nd.base1 + Rank(o.t.nd.vector, i + 1) - 1, s);
    } else {
      LeafAnchored(h, s);
    }
    TakeOver(h, s);
  }

  /** The content of slot i of the old node, as it stands. */
  method TakeSlot(p: Poptrie, inode: nat, i: nat, ghost o: TSlot)
    returns (ret: int, child: PNode, leaf: u16, ghost s: TSlot)
    requires Anchored(p.H(), inode, o) && i < 64
    ensures s == PastT(o, i) && Returned(ret, child, leaf, s) && Made(p.H(), p.H(), s, s, StripSlot(s))
  {
    hide Anchored, Bit, Made, StripSlot, VecBt, PopcntLs, Rank, Poptrie.Foot;
    AnchoredNode(p.H(), inode, o);
    OldSlot(p.H(), inode, o, i);
    child, leaf := PNode(0, 0, NONE, NONE), 0;
    s := PastT(o, i);
    var nd := p.nodes[inode];
    if VecBt(nd.vector, i) {
      var k := PopcntLs(nd.vector, i);
      ret, child := 0, p.nodes[nd.base1 + k - 1];
    } else {
      var k := PopcntLs(nd.leafvec, i);
      ret, leaf := 1, p.leaves[nd.base0 + k - 1];
    }
  }

  lemma AnchoredNode(h: Heap, inode: int, o: TSlot)
    requires Anchored(h, inode, o)
    ensures o.TKid? ==> 0 <= inode < |h.N| && h.N[inode] == o.t.nd
    ensures o.TLeaf? ==> inode == -1
  {}

  lemma LeafAnchored(h: Heap, s: TSlot)
    requires s.TLeaf?
    ensures Anchored(h, -1, s)
  {}

  /** Copying an old slot allocates nothing and shares everything. */
  lemma TakeOver(h: Heap, s: TSlot)
    requires s.TLeaf? || exists inode :: Anchored(h, inode, s)
    ensures Made(h, h, s, s, StripSlot(s))
  {
    hide Rep, Lin, Grows, Shares;
    GrowsSelf(h);
    if s.TKid? { RepSize(h, s.t); }
    SharesSelf(s, Blocks(h));
  }

  /** The local variables of _update_inode. */
  datatype Work = Work(vector: u64, leafvec: u64, leaves: seq<u16>, prev: int, children: seq<PNode>, nvec: nat)

  /** They record the slots ts, and the vector tv of the triangle for the slots to come. */
  ghost predicate WorkOK(w: Work, ts: seq<TSlot>, tv: u64) {
    && LeafEnc(w.leafvec, w.leaves, w.prev, ts) && KidEnc(w.children, ts)
    && (forall j :: 0 <= j < 64 ==> Bit(w.vector, j) == (if j < |ts| then ts[j].TKid? else Bit(tv, j)))
    && w.nvec == |KidNodes(ts, |ts|)|
  }

  /** The slots built so far are the rebuilt ones. */
  ghost predicate Rebuilt(ts: seq<TSlot>, o: TSlot, c: Cur) {
    forall j :: 0 <= j < |ts| ==> StripSlot(ts[j]) == RebuildSlot(StripSlot(o), c, j)
  }

  method PushSlot(w: Work, i: nat, ret: int, child: PNode, leaf: u16, ghost ts: seq<TSlot>, ghost s: TSlot,
          ghost tv: u64)
    returns (w': Work)
    requires WorkOK(w, ts, tv) && i == |ts| < 64 && Returned(ret, child, leaf, s) && Bit(w.vector, i)
    ensures WorkOK(w', ts + [s], tv)
  {
    hide Bit, LeafEnc, StartsRun;
    KidNodesPush(ts, s);
    KidEncPush(w.children, ts, s, child);
    if ret > 0 {
      // vertical compression, then horizontal compression
      var vector := VecClear(w.vector, i);
      var leafvec, leaves, prev := PushLeaf(w.leafvec, w.leaves, w.prev, i, leaf, ts);
      w' := Work(vector, leafvec, leaves, prev, w.children, w.nvec);
    } else {
      LeafEncKid(w.leafvec, w.leaves, w.prev, ts, s.t);
      w' := w.(children := w.children[i := child], nvec := w.nvec + 1);
    }
  }

  lemma KidEncPush(children: seq<PNode>, ts: seq<TSlot>, s: TSlot, child: PNode)
    requires KidEnc(children, ts) && |ts| < 64
    ensures s.TLeaf? ==> KidEnc(children, ts + [s])
    ensures s.TKid? && s.t.nd == child ==> KidEnc(children[|ts| := child], ts + [s])
  {}

  /** The body of the loop of _update_inode over the 64 slots. */
  method OneSlot(p: Poptrie, w: Work, i: nat, v: RView, inode: int, ghost ts: seq<TSlot>, ghost h0: Heap,
                 ghost o: TSlot, ghost sh: Shapes, ghost d: nat, ghost c: Cur, ghost W: set<object>, ghost tv: u64)
    returns (ok: bool, w': Work, ghost s: TSlot)
    requires p.Mem() && Anchored(h0, inode, o) && SlotRep(h0, o)
    requires WorkOK(w, ts, tv) && i == |ts| < 64 && Batch(h0, p.H(), o, ts)
    requires W !! p.Foot() && p !in W && Sees(v, sh.sl, sh.sr, d, SubN(c, i, 6), W)
    requires Bit(tv, i) <==> !IsLeaf(SubN(c, i, 6))
    requires !IsLeaf(SubN(c, i, 6)) ==> Tall(SubN(c, i, 6)) < Tall(c)
    modifies p.Foot(), p`trace
    ensures p.Mem()
    ensures !ok ==> Grows(h0, p.H()) && p.Fails() > old(p.Fails())
    ensures ok ==> p.Fails() == old(p.Fails()) && Batch(h0, p.H(), o, ts + [s]) && WorkOK(w', ts + [s], tv)
                   && StripSlot(s) == RebuildSlot(StripSlot(o), c, i)
    ensures Quiet(old(p.trace), p.trace, Blocks(old(p.H())), 2 * Posts(SubN(c, i, 6)))
    decreases Tall(c), 0
  {
    hide Poptrie.Mem, Poptrie.Fails, Poptrie.Foot, Sees, Anchored, Rebuild, Strip, Tall, Degenerate, Grows, Bit,
         StripSlot,
         SlotBuilt, Batch, SlotRep, SubN, IsLeaf, WorkOK, Returned, LeafEnc, KidEnc, Blocks, SlotsB, MarkedBelow,
         NewSlot, RebuildSlot, Quiet, Posts;
    p.FootHeld();
    p.MemTrace();
    ghost var h := p.H();
    BatchFacts(h0, h, o, ts);
    AnchoredGrows(h0, h, inode, o);
    SeesTests(v, sh.sl, sh.sr, d, SubN(c, i, 6), W);
    SlotSpec(o, c, i, h0);
    WorkVector(w, ts, tv);
    var ret, child, leaf := 1, PNode(0, 0, NONE, NONE), 0;
    if VecBt(w.vector, i) {
      ret, child, leaf, s := UpdateSlot(p, v, inode, i, o, sh.sl, sh.sr, d, SubN(c, i, 6), W);
      if ret < 0 {
        GrowsTransitive(h0, h, p.H());
        return false, w, s;
      }
      w' := PushSlot(w, i, ret, child, leaf, ts, s, tv);
    } else {
      leaf := Nh(v.ext);
      s := TLeaf(leaf);
      LeafBuilt(h, PastT(o, i), leaf);
      w' := PushExt(w, i, leaf, ts, tv);
      QuietSelf(p.trace, Blocks(h));
      QuietLess(p.trace, p.trace, Blocks(h), 0, Blocks(h), 2 * Posts(SubN(c, i, 6)));
    }
    BatchStep(h0, h, p.H(), o, ts, s);
    ok := true;
  }

  method PushExt(w: Work, i: nat, leaf: u16, ghost ts: seq<TSlot>, ghost tv: u64) returns (w': Work)
    requires WorkOK(w, ts, tv) && i == |ts| < 64 && !Bit(w.vector, i)
    ensures WorkOK(w', ts + [TLeaf(leaf)], tv)
  {
    hide Bit;
    KidNodesPush(ts, TLeaf(leaf));
    var leafvec, leaves, prev := PushLeaf(w.leafvec, w.leaves, w.prev, i, leaf, ts);
    w' := w.(leafvec := leafvec, leaves := leaves, prev := prev);
  }

  lemma BatchFacts(h0: Heap, h: Heap, o: TSlot, ts: seq<TSlot>)
    requires Batch(h0, h, o, ts)
    ensures Grows(h0, h) && Blocks(h0) <= Blocks(h)
  {}

  lemma LeafBuilt(h: Heap, x: TSlot, leaf: u16)
    ensures SlotBuilt(h, h, x, TLeaf(leaf)) && StripSlot(TLeaf(leaf)) == Leaf(leaf)
  {
    GrowsSelf(h);
  }

  lemma WorkVector(w: Work, ts: seq<TSlot>, tv: u64)
    requires WorkOK(w, ts, tv) && |ts| < 64
    ensures Bit(w.vector, |ts|) == Bit(tv, |ts|)
  {}

  /** What slot i of the rebuilt node is, by cases. */
  lemma SlotSpec(o: TSlot, c: Cur, i: nat, h: Heap)
    requires i < 64 && SlotRep(h, o)
    ensures var s := SubN(c, i, 6);
            RebuildSlot(StripSlot(o), c, i) ==
            if IsLeaf(s) then Leaf(s.ext) else NewSlot(StripSlot(PastT(o, i)), o.TKid?, s)
  {
    if o.TKid? { RepSize(h, o.t); }
    StripPast(o, i);
  }

  method Parse(v: RView, ghost sl: Shape, ghost sr: Shape, ghost d: nat, ghost c: Cur, ghost W: set<object>)
    returns (tri: Bottom)
    requires Sees(v, sl, sr, d, c, W)
    ensures Sized(tri) && Parsed(tri, 0, 6, d, c, W)
  {
    hide Sees, Objs;
    Pow2At6();
    var t := Bottom(seq(64, i => Blank(null)), 0, seq(64, i => Shapes(Empty, Empty)));
    forall j | 0 <= j < 64 ensures !Bit(0, j) { BitOfZero(j); }
    tri := ParseTriangle(v, t, 0, 0, sl, sr, d, c, W);
  }

  /** Entry i of the triangle is radix position i, six levels down. */
  lemma TriangleAt(tri: Bottom, i: nat, d: nat, c: Cur, W: set<object>)
    requires Parsed(tri, 0, 6, d, c, W) && i < 64
    ensures Sized(tri) && Sees(tri.nodes[i], tri.shs[i].sl, tri.shs[i].sr, d + 6, SubN(c, i, 6), W)
    ensures Bit(tri.vector, i) <==> !IsLeaf(SubN(c, i, 6))
    ensures !IsLeaf(SubN(c, i, 6)) ==> Tall(SubN(c, i, 6)) < Tall(c)
  {
    hide Sees;
    Pow2At6();
    assert Entry(tri, 0 + i, d + 6, SubN(c, i, 6), W);
    SubNTall(c, i, 6);
    LeafIsTall0(SubN(c, i, 6));
  }

  lemma StartWork(w: Work, h: Heap, inode: int, o: TSlot, c: Cur)
    requires w.leafvec == 0 && w.leaves == [] && w.prev == -1 && |w.children| == 64 && w.nvec == 0
    requires Anchored(h, inode, o)
    ensures WorkOK(w, [], w.vector) && Batch(h, h, o, []) && Rebuilt([], o, c) && SlotRep(h, o)
  {
    LeafEncStart();
    GrowsSelf(h);
  }

  lemma RebuiltPush(ts: seq<TSlot>, s: TSlot, o: TSlot, c: Cur)
    requires Rebuilt(ts, o, c) && StripSlot(s) == RebuildSlot(StripSlot(o), c, |ts|)
    ensures Rebuilt(ts + [s], o, c)
  {}

  lemma RebuiltAll(ts: seq<TSlot>, o: TSlot, c: Cur, nd: PNode)
    requires Rebuilt(ts, o, c) && |ts| == 64
    ensures Strip(Tree(nd, ts)) == Rebuild(StripSlot(o), c)
  {
    var a, b := Strip(Tree(nd, ts)), Rebuild(StripSlot(o), c);
    forall i | 0 <= i < 64 ensures a.slots[i] == b.slots[i] {
      assert a.slots[i] == StripSlot(ts[i]);
      assert b.slots[i] == RebuildSlot(StripSlot(o), c, i);
    }
    assert a.slots == b.slots;
  }

  lemma WorkDone(w: Work, ts: seq<TSlot>, tv: u64)
    requires WorkOK(w, ts, tv) && |ts| == 64
    ensures VectorOK(w.vector, ts) && LeafvecOK(w.leafvec, ts) && w.leaves == Runs(ts, 64)
    ensures w.nvec == |KidNodes(ts, 64)| && KidEnc(w.children, ts)
  {
    LeafEncDone(w.leafvec, w.leaves, w.prev, ts);
  }

  /** The tail of _update_inode: allocate the two blocks, fill them, and store the node structure. */
  method PlaceNode(p: Poptrie, w: Work, ghost ts: seq<TSlot>, ghost tv: u64) returns (ret: int, n: PNode)
    requires p.Mem() && WorkOK(w, ts, tv) && |ts| == 64
    modifies p.Foot(), p`trace
    ensures p.Mem() && ret <= 1
    ensures ret < 0 ==> Grows(old(p.H()), p.H()) && Blocks(p.H()) == Blocks(old(p.H())) && p.Fails() > old(p.Fails())
    ensures ret >= 0 ==> Placed(old(p.H()), p.H(), n, ts) && p.Fails() == old(p.Fails())
    ensures ret > 0 <==> ret >= 0 && KidNodes(ts, 64) == [] && |Runs(ts, 64)| == 1
    ensures Quiet(old(p.trace), p.trace, Blocks(old(p.H())), 2)
  {
    hide Poptrie.Mem, Poptrie.Fails, Poptrie.Foot, Bit, Grows, Blocks, VectorOK, LeafvecOK, WorkOK, KidEnc, Placed,
         KidNodes, Runs, PlacedLeaves, PlacedNodes, Quiet;
    p.FootHeld();
    WorkDone(w, ts, tv);
    ghost var h, t := p.H(), p.trace;
    ret, n := -1, PNode(0, 0, NONE, NONE);
    var items := Compact(w.vector, w.children, ts);
    var ok, base1 := PlaceNodes(p, items);
    if !ok {
      GrowsSelf(h);
      QuietLess(t, p.trace, Blocks(h), 1, Blocks(h), 2);
      return;
    }
    ghost var h1, t1 := p.H(), p.trace;
    PlacedBlocks(h, h1, base1, items);
    var base0;
    ok, base0 := PlaceLeaves(p, w.leaves);
    BuildOn(t, t1, p.trace, Blocks(h), Blocks(h1), 1, 1);
    if !ok {
      if base1 != NONE {
        ghost var t2 := p.trace;
        p.FreeNodes(base1);
        Unplaced(h, h1, base1, items);
        BuildOn(t, t2, p.trace, Blocks(h), Blocks(h1) - {NB(base1)}, 2, 0);
      } else {
        NothingPlaced(h, h1, items);
      }
      return;
    }
    n := PNode(w.leafvec, w.vector, base0, base1);
    PlacedBoth(h, h1, p.H(), n, ts);
    ret := if w.nvec == 0 && |w.leaves| == 1 then 1 else 0;
  }

  lemma PlacedBlocks(h: Heap, h1: Heap, base1: u32, items: seq<PNode>)
    requires PlacedNodes(h, h1, base1, items)
    ensures Blocks(h) <= Blocks(h1) && NB(base1) !in Blocks(h)
    ensures base1 != NONE ==> base1 in h1.ln
  {}

  lemma NothingPlaced(h: Heap, h1: Heap, items: seq<PNode>)
    requires PlacedNodes(h, h1, NONE, items)
    ensures Grows(h, h1) && Blocks(h1) == Blocks(h)
  {}

  lemma Unplaced(h: Heap, h1: Heap, base1: u32, items: seq<PNode>)
    requires PlacedNodes(h, h1, base1, items) && base1 != NONE
    ensures Grows(h, h1.(ln := h1.ln - {base1})) && Blocks(h1.(ln := h1.ln - {base1})) == Blocks(h)
  {
    FreeN(h1, base1);
    var h' := h1.(ln := h1.ln - {base1});
    KeepsLess(h1, h', Blocks(h1) - {NB(base1)}, Blocks(h));
    KeepsTransitive(h, h1, h', Blocks(h));
  }

  /** _update_inode: the node for radix position c, replacing o.  Returns 1 when the node holds a
      single next hop, 0 when it does not, and -1 when an allocation failed. */
  method UpdateInode(p: Poptrie, v: RView, inode: int,
                     ghost o: TSlot, ghost sl: Shape, ghost sr: Shape, ghost d: nat, ghost c: Cur, ghost W: set<object>)
    returns (ret: int, n: PNode, leaf: u16, ghost t: Tree)
    requires p.Mem() && Anchored(p.H(), inode, o)
    requires W !! p.Foot() && p !in W && Sees(v, sl, sr, d, c, W)
    modifies p.Foot(), p`trace
    ensures p.Mem() && ret <= 1
    ensures ret < 0 ==> Grows(old(p.H()), p.H()) && p.Fails() > old(p.Fails())
    ensures ret >= 0 ==>
      && p.Fails() == old(p.Fails())
      && SlotBuilt(old(p.H()), p.H(), o, TKid(t)) && Own(t.nd) !! Blocks(old(p.H()))
      && Strip(t) == Rebuild(StripSlot(o), c) && n == t.nd
      && (ret > 0 <==> Degenerate(Strip(t)))
      && (ret > 0 ==> Strip(t).slots[0] == Leaf(leaf))
    ensures Quiet(old(p.trace), p.trace, Blocks(old(p.H())), Need(c))
    decreases Tall(c), 1
  {
    hide Poptrie.Mem, Poptrie.Fails, Poptrie.Foot, Sees, Anchored, Rebuild, Strip, StripSlot, SubN, IsLeaf, Batch,
         WorkOK, Bit, Entry, Tall, Degenerate, Placed, Grows, Parsed, SlotBuilt, SlotRep, Rebuilt, Objs, Quiet, Need,
         Level, Posts, Blocks, RebuildSlot, KidNodes, Runs, LeafEnc, KidEnc, Sees;
    p.FootHeld();
    p.MemTrace();
    ghost var h0, t0 := p.H(), p.trace;
    QuietSelf(t0, Blocks(h0));
    LevelStart(c);
    BlockPosts(c);
    var tri := Parse(v, sl, sr, d, c, W);
    var children := seq(64, i => PNode(0, 0, NONE, NONE));
    var w := Work(tri.vector, 0, [], -1, children, 0);
    ghost var ts: seq<TSlot> := [];
    StartWork(w, h0, inode, o, c);
    n, leaf, t := PNode(0, 0, NONE, NONE), 0, Tree(PNode(0, 0, NONE, NONE), []);
    var i := 0;
    while i < 64
      invariant 0 <= i <= 64 && i == |ts|
      invariant p.Mem() && p.Fails() == old(p.Fails())
      invariant Batch(h0, p.H(), o, ts) && WorkOK(w, ts, tri.vector) && Rebuilt(ts, o, c)
      invariant Parsed(tri, 0, 6, d, c, W) && Sized(tri)
      invariant Quiet(t0, p.trace, Blocks(h0), 2 * Level(c, 6, i))
    {
      TriangleAt(tri, i, d, c, W);
      BatchFacts(h0, p.H(), o, ts);
      LevelStep(c, i);
      ghost var h1, t1 := p.H(), p.trace;
      var ok;
      ghost var s;
      ok, w, s := OneSlot(p, w, i, tri.nodes[i], inode, ts, h0, o, tri.shs[i], d + 6, c, W, tri.vector);
      BuildOn(t0, t1, p.trace, Blocks(h0), Blocks(h1), 2 * Level(c, 6, i), 2 * Posts(SubN(c, i, 6)));
      if !ok {
        QuietLess(t0, p.trace, Blocks(h0), 2 * Level(c, 6, i + 1), Blocks(h0), Need(c));
        return -1, n, leaf, t;
      }
      RebuiltPush(ts, s, o, c);
      ts := ts + [s];
      i := i + 1;
    }
    ghost var h, t1 := p.H(), p.trace;
    ret, n := PlaceNode(p, w, ts, tri.vector);
    BatchFacts(h0, h, o, ts);
    BuildOn(t0, t1, p.trace, Blocks(h0), Blocks(h), 2 * Level(c, 6, 64), 2);
    QuietLess(t0, p.trace, Blocks(h0), 2 * Level(c, 6, 64) + 2, Blocks(h0), Need(c));
    if ret < 0 {
      GrowsTransitive(h0, h, p.H());
      return;
    }
    t := Tree(n, ts);
    PlacedDone(h0, h, p.H(), o, ts, n);
    RebuiltAll(ts, o, c, n);
    DegenerateMeans(t);
    WorkDone(w, ts, tri.vector);
    if ret > 0 { leaf := w.leaves[0]; }
  }

  lemma PlacedDone(h0: Heap, h: Heap, h': Heap, o: TSlot, ts: seq<TSlot>, nd: PNode)
    requires Batch(h0, h, o, ts) && |ts| == 64 && SlotRep(h0, o) && Placed(h, h', nd, ts)
    ensures SlotBuilt(h0, h', o, TKid(Tree(nd, ts))) && Own(nd) !! Blocks(h0)
  {
    hide Batch, SlotBuilt, NodeSeen, NodeHeld, Grows, SlotRep;
    BatchDone(h0, h, h', o, ts, nd);
  }
}
