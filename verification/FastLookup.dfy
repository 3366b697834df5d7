/** poptrie_lookup: direct entry, then at most three 64-way nodes. */
module FastLookup {
  import opened Bits
  import opened BuddyModel
  import opened Rib
  import opened Trie
  import opened TrieUpdate
  import opened Neatness
  import opened Store
  import opened Sharing
  import opened PoptrieState
  import opened Build
  import opened Entries
  import opened Part
  import opened Splice
  import opened FibTable
  import opened Direct

  /** What a reader finds in the arenas from the node structure at inode. */
  ghost function Fast(h: Heap, inode: int, addr: u32, d: nat): nat
    decreases 64 - d
  {
    if d + 6 > 64 || !(0 <= inode < |h.N|) then 0
    else
      var nd := h.N[inode];
      var i := Chunk(addr, d, 6);
      Pow2At6();
      if VecBt(nd.vector, i) then Fast(h, nd.base1 + PopcntLs(nd.vector, i) - 1, addr, d + 6)
      else
        var b := nd.base0 + PopcntLs(nd.leafvec, i) - 1;
        if 0 <= b < |h.L| then h.L[b] else 0
  }

  /** What a reader finds for an address: an index into the next-hop table. */
  ghost function FastIndex(h: Heap, ds: seq<u32>, addr: u32): nat {
    var i := Chunk(addr, 0, 18);
    if i >= |ds| then 0
    else if ds[i] >= LEAF_TAG then ds[i] - LEAF_TAG
    else Fast(h, ds[i], addr, 18)
  }

  /** The rank encoding undone: reading a stored tree gives what the tree says. */
  lemma {:induction false} FastIsLook(h: Heap, inode: nat, t: Tree, addr: u32, d: nat)
    requires SlotRep(h, TKid(t)) && inode < |h.N| && h.N[inode] == t.nd
    ensures Fast(h, inode, addr, d) == Look(Kid(Strip(t)), addr, d)
    decreases t
  {
    hide Rank, Bit, Chunk, PopcntLs, VecBt, Rep, Lin;
    if d + 6 <= 64 {
      Pow2At6();
      var i := Chunk(addr, d, 6);
      NodeSlot(h, t, i);
      StripAt(t, i);
      if t.slots[i].TKid? {
        StripKid(t.slots[i].t);
        FastIsLook(h, t.nd.base1 + Rank(t.nd.vector, i + 1) - 1, t.slots[i].t, addr, d + 6);
      }
    }
  }

  /** Slot i of a stored node, by the ranks of the two vectors. */
  lemma NodeSlot(h: Heap, t: Tree, i: nat)
    requires SlotRep(h, TKid(t)) && i < 64
    ensures |t.slots| == 64 && (Bit(t.nd.vector, i) <==> t.slots[i].TKid?)
    ensures t.slots[i].TKid? ==>
      var b := t.nd.base1 + Rank(t.nd.vector, i + 1) - 1;
      0 <= b < |h.N| && h.N[b] == t.slots[i].t.nd && SlotRep(h, t.slots[i])
    ensures t.slots[i].TLeaf? ==>
      var b := t.nd.base0 + Rank(t.nd.leafvec, i + 1) - 1;
      0 <= b < |h.L| && h.L[b] == t.slots[i].v
  {
    hide Rank, Bit, KidNodes, Runs;
    RepSize(h, t);
    VectorBit(h.N, h.L, t.nd, t.slots, i);
    KidAt(h.N, h.L, t.nd, t.slots, i);
    LeafAt(h.N, h.L, t.nd, t.slots, i);
    LinAll(t, i);
  }

  lemma EntryLook(h: Heap, ds: seq<u32>, addr: u32, e: TSlot)
    requires var i := Chunk(addr, 0, 18); i < |ds| && EntryAt(h, ds[i], e)
    ensures FastIndex(h, ds, addr) == Look(StripSlot(e), addr, 18)
  {
    hide Rep, Lin;
    match e
    case TLeaf(v) =>
    case TKid(t) => FastIsLook(h, ds[Chunk(addr, 0, 18)], t, addr, 18);
  }

  /** The fast form agrees with the radix tree, entry by entry. */
  ghost predicate Tracking(es: seq<TSlot>, root: Cur) {
    |es| == DIRS && forall i :: 0 <= i < DIRS ==> TracksEntry(StripSlot(es[i]), SubN(root, i, 18))
  }

  lemma TrackingAt(es: seq<TSlot>, root: Cur, i: nat)
    requires Tracking(es, root) && i < DIRS
    ensures |es| == DIRS && TracksEntry(StripSlot(es[i]), SubN(root, i, 18))
  {}

  /** Every entry is neat: in particular no node but a top node is left with a single next hop. */
  ghost predicate AllNeat(es: seq<TSlot>, root: Cur, n: nat) {
    |es| == DIRS && forall i :: 0 <= i < DIRS ==> NeatEntry(StripSlot(es[i]), SubN(root, i, 18), n)
  }

  lemma AllNeatAt(es: seq<TSlot>, root: Cur, n: nat, i: nat)
    requires AllNeat(es, root, n) && i < DIRS
    ensures |es| == DIRS && NeatEntry(StripSlot(es[i]), SubN(root, i, 18), n)
  {}

  /** Stored entries that agree with the radix tree answer every address with its longest match. */
  lemma FastIsVal(h: Heap, ds: seq<u32>, es: seq<TSlot>, root: Cur, addr: u32)
    requires |ds| == |es| == DIRS && (forall i :: 0 <= i < DIRS ==> EntryAt(h, ds[i], es[i]))
    requires Tracking(es, root) && Tall(root) <= 32
    ensures FastIndex(h, ds, addr) == Val(root, addr)
  {
    hide EntryAt, Tracking, TracksEntry, Look, SubN, Val, FastIndex, StripSlot, Chunk, Top;
    Index18(addr);
    var i := Chunk(addr, 0, 18);
    EntryLook(h, ds, addr, es[i]);
    TrackingAt(es, root, i);
    TracksLook(StripSlot(es[i]), root, addr, 18);
  }

  /** poptrie_lookup up to the next-hop table: the index found for the address.  Right or wrong, it
      is an index into the table, found in at most three node visits. */
  method FindIndex(p: Poptrie, addr: u32, ghost es: seq<TSlot>, ghost root: Cur, ghost n: nat)
    returns (index: nat, ghost visits: nat)
    requires p.Mem() && p.dir.Length == DIRS && |es| == DIRS
    requires forall i :: 0 <= i < DIRS ==> EntryAt(p.H(), p.dir[i], es[i])
    requires AllNeat(es, root, n) && Tall(root) <= 32
    ensures index == FastIndex(p.H(), p.dir[..], addr) < n
    ensures visits <= 3
  {
    hide EntryAt, AllNeat, Look, SubN, StripSlot, Strip, Chunk, Top, Poptrie.Mem, Poptrie.Foot, SlotRep, NeatNode,
         FastIndex;
    Index18(addr);
    var idx := Chunk(addr, 0, 18);
    AllNeatAt(es, root, n, idx);
    EntryKind(p.H(), p.dir[idx], es[idx]);
    EntryTree(p.H(), p.dir[idx], es[idx]);
    StripKinds18(es[idx]);
    FastStart(p.H(), p.dir[..], addr, idx);
    if p.dir[idx] >= LEAF_TAG {
      EntryLeaf(p.H(), p.dir[idx], es[idx]);
      return p.dir[idx] - LEAF_TAG, 0;
    }
    index, visits := WalkNodes(p, p.dir[idx], addr, es[idx].t, root, n);
  }

  /** The loop of poptrie_lookup over the nodes. */
  method WalkNodes(p: Poptrie, root_node: nat, addr: u32, ghost t0: Tree, ghost root: Cur, ghost n: nat)
    returns (index: nat, ghost visits: nat)
    requires p.Mem() && SlotRep(p.H(), TKid(t0)) && root_node < |p.H().N| && p.H().N[root_node] == t0.nd
    requires NeatNode(Strip(t0), Walk(root, addr, 18), n) && Tall(root) <= 32
    ensures index == Fast(p.H(), root_node, addr, 18) < n && visits <= 3
  {
    hide Strip, Chunk, Top, SubN, Poptrie.Mem, Poptrie.Foot, Rank, Bit, VecBt, PopcntLs, SlotRep, NeatNode;
    ghost var h := p.H();
    ghost var t := t0;
    var base: nat, pos: nat := root_node, 18;
    visits := 0;
    Pow2At6();
    var idx := Chunk(addr, pos, 6);
    pos := pos + 6;
    while true
      invariant pos == 24 + 6 * visits && visits <= 2 && idx == Chunk(addr, pos - 6, 6) < 64
      invariant SlotRep(h, TKid(t)) && base < |h.N| && h.N[base] == t.nd
      invariant NeatNode(Strip(t), Walk(root, addr, pos - 6), n)
      invariant Fast(h, base, addr, pos - 6) == Fast(h, root_node, addr, 18)
      decreases 3 - visits
    {
      var inode := base;
      NodeSlot(h, t, idx);
      NextVisit(root, addr, pos - 6, t, idx, n);
      var node := p.nodes[inode];
      if VecBt(node.vector, idx) {
        var k := PopcntLs(node.vector, idx);
        base := node.base1 + k - 1;
        t := t.slots[idx].t;
        idx := Chunk(addr, pos, 6);
        pos := pos + 6;
        visits := visits + 1;
      } else {
        var k := PopcntLs(node.leafvec, idx);
        return p.leaves[node.base0 + k - 1], visits + 1;
      }
    }
  }

  lemma EntryTree(h: Heap, w: u32, e: TSlot)
    requires EntryAt(h, w, e)
    ensures e.TKid? ==> SlotRep(h, e) && w < |h.N| && h.N[w] == e.t.nd
  {}

  lemma EntryLeaf(h: Heap, w: u32, e: TSlot)
    requires EntryAt(h, w, e) && w >= LEAF_TAG
    ensures e == TLeaf(w - LEAF_TAG) && StripSlot(e) == Leaf(w - LEAF_TAG)
  {}

  lemma StripKinds18(x: TSlot)
    ensures x.TKid? ==> StripSlot(x) == Kid(Strip(x.t))
  {}

  lemma FastStart(h: Heap, ds: seq<u32>, addr: u32, i: nat)
    requires i == Chunk(addr, 0, 18) < |ds|
    ensures FastIndex(h, ds, addr) == if ds[i] >= LEAF_TAG then ds[i] - LEAF_TAG else Fast(h, ds[i], addr, 18)
  {}

  /** A child stands at one of the node depths 18, 24 and 30. */
  lemma NextVisit(root: Cur, addr: u32, d: nat, t: Tree, i: nat, n: nat)
    requires NodeDepth(d) && Tall(root) <= 32 && NeatNode(Strip(t), Walk(root, addr, d), n)
        && i == Chunk(addr, d, 6) < 64
    ensures |t.slots| == 64
    ensures t.slots[i].TKid? ==> d < 30 && NeatNode(Strip(t.slots[i].t), Walk(root, addr, d + 6), n)
    ensures t.slots[i].TLeaf? ==> t.slots[i].v < n
  {
    hide Chunk, SubN, Top, Degenerate;
    WalkStep(root, addr, d, 6);
    StripAt(t, i);
    assert Neat(Strip(t).slots[i], SubN(Walk(root, addr, d), i, 6), n);
    WalkTall(root, addr, d + 6);
    LeafIsTall0(Walk(root, addr, d + 6));
  }
}
