/** _descend_and_update: follow the updated prefix through the 64-way nodes to the block that
    holds it, keeping the path on a stack, and update from there. */
module Descent {
  import opened Bits
  import opened BuddyModel
  import opened Rib
  import opened Trie
  import opened TrieUpdate
  import opened Radix
  import opened Triangle
  import opened Store
  import opened Sharing
  import opened Trace
  import opened Cost
  import opened PoptrieState
  import opened Build
  import opened Clean
  import opened Entries
  import opened Overlook
  import opened Part
  import opened Splice

  lemma {:induction false} PatchUpPrefix(xs: seq<TSlot>, stack: seq<Frame>, x: TSlot, f: Frame, k: nat, rep: Slot)
    requires k < |xs| == |stack|
    ensures PatchUp(xs + [x], stack + [f], k, rep) == PatchUp(xs, stack, k, rep)
  {
    hide PatchSlot, Compress;
    if k > 0 {
      var n := PatchSlot(xs[k - 1], stack[k].idx, rep);
      assert (xs + [x])[k - 1] == xs[k - 1] && (stack + [f])[k] == stack[k];
      PatchUpPrefix(xs, stack, x, f, k - 1, if k == 1 then Kid(n) else Compress(n));
    }
  }

  /** What the slot at `depth` becomes: at the root of an entry, or below it. */
  function Target(o: Slot, c: Cur, prefix: u32, len: nat, depth: nat, top: bool): Slot
    requires len <= 32
  {
    if top then RefreshEntry(o, c, prefix, len) else Compress(Refresh(o, c, prefix, len, depth))
  }

  /** Refreshing a node is refreshing the child on the path. */
  lemma RefreshStep(t: Tree, c: Cur, prefix: u32, len: nat, depth: nat, top: bool)
    requires |t.slots| == 64 && depth + 6 < len <= 32 && (top ==> depth == 18)
    ensures Chunk(prefix, depth, 6) < 64
    ensures var idx := Chunk(prefix, depth, 6);
            var n := PatchSlot(TKid(t), idx, Compress(Refresh(StripSlot(t.slots[idx]), SubN(c, idx, 6), prefix, len,
                depth + 6)));
            Target(StripSlot(TKid(t)), c, prefix, len, depth, top) == if top then Kid(n) else Compress(n)
  {
    hide Chunk, Rebuild, SubN, Degenerate;
    Pow2At6();
    StripAt(t, Chunk(prefix, depth, 6));
  }

  lemma RefreshHere(o: Slot, c: Cur, prefix: u32, len: nat, depth: nat, top: bool)
    requires len <= 32 && (top ==> depth == 18) && (o.Leaf? || len <= depth + 6)
    ensures Target(o, c, prefix, len, depth, top) == Compress(Rebuild(o, c))
  {}

  /** The update from the last slot of the path is lost to the early exit. */
  ghost predicate Lost(xs: seq<TSlot>, stack: seq<Frame>, c: Cur, prefix: u32, len: nat, depth: nat)
    requires |xs| >= 1 && len <= 32
  {
    var x := xs[|xs| - 1];
    if x.TLeaf? then Missed(xs, stack, |xs| - 1, Compress(Rebuild(StripSlot(x), c)))
    else Overlooked(StripSlot(x), c, prefix, len, depth)
  }

  lemma LostHere(xs: seq<TSlot>, stack: seq<Frame>, c: Cur, prefix: u32, len: nat, depth: nat)
    requires |xs| == |stack| >= 1 && len <= 32 && (xs[|xs| - 1].TLeaf? || len <= depth + 6)
    ensures Lost(xs, stack, c, prefix, len, depth) <==>
            Missed(xs, stack, |xs| - 1, Compress(Rebuild(StripSlot(xs[|xs| - 1]), c)))
  {
    hide Rebuild, Compress, Stops, Strip;
    if xs[|xs| - 1].TKid? { KidNotMissed(xs, stack, |xs| - 1, Compress(Rebuild(StripSlot(xs[|xs| - 1]), c))); }
  }

  lemma LostStep(xs: seq<TSlot>, stack: seq<Frame>, f: Frame, c: Cur, prefix: u32, len: nat, depth: nat)
    requires |xs| == |stack| >= 1 && depth + 6 < len <= 32 && (|stack| == 1 <==> depth == 18)
    requires xs[|xs| - 1].TKid? && |xs[|xs| - 1].t.slots| == 64 && f.idx == Chunk(prefix, depth, 6) < 64
    ensures var s := xs[|xs| - 1].t.slots[f.idx];
            Lost(xs + [s], stack + [f], SubN(c, f.idx, 6), prefix, len, depth + 6) <==>
              Lost(xs, stack, c, prefix, len, depth)
  {
    hide Rebuild, Compress, Stops, SubN, Chunk, Strip;
    var x := xs[|xs| - 1];
    var s := x.t.slots[f.idx];
    StripAt(x.t, f.idx);
    StripKid(x.t);
    StripKinds(s);
    var xs', stack' := xs + [s], stack + [f];
    assert xs'[|xs|] == s && xs'[|xs| - 1] == x && stack'[|xs|] == f;
  }

  /** Going down one node keeps the path traced. */
  lemma TracedPush(h: Heap, w: u32, stack: seq<Frame>, xs: seq<TSlot>, inode: int, idx: nat)
    requires Traced(h, w, stack, xs) && |xs| == |stack| && BottomAt(h, w, stack, xs, inode)
    requires xs[|xs| - 1].TKid? && |xs[|xs| - 1].t.slots| == 64 && idx < 64
    ensures Traced(h, w, stack + [Frame(inode, idx)], xs + [xs[|xs| - 1].t.slots[idx]])
  {
    hide EntryAt, SlotRep, B;
    var xs', stack' := xs + [xs[|xs| - 1].t.slots[idx]], stack + [Frame(inode, idx)];
    forall k | 1 <= k < |stack'| ensures FrameAt(h, w, stack', xs', k) {
      if k < |stack| { assert FrameAt(h, w, stack, xs, k); }
    }
  }

  /** The child's place, by the rank of its bit. */
  lemma KidStands(h: Heap, t: Tree, idx: nat)
    requires SlotRep(h, TKid(t)) && idx < 64
    ensures |t.slots| == 64 && (Bit(t.nd.vector, idx) <==> t.slots[idx].TKid?)
    ensures t.slots[idx].TKid? ==>
      var s := t.slots[idx].t; var pos := t.nd.base1 + Rank(t.nd.vector, idx + 1) - 1; var b := t.nd.base1;
      && |s.slots| == 64 && SlotRep(h, TKid(s))
      && 0 <= pos < |h.N| && h.N[pos] == s.nd && b in h.ln && b <= pos < b + Pow2(h.ln[b]) && NB(b) !in B(s)
  {
    hide Rank, Bit, Rep, Lin, KidNodes, B;
    RepSize(h, t);
    VectorBit(h.N, h.L, t.nd, t.slots, idx);
    if t.slots[idx].TKid? {
      KidPlace(h, t, idx);
      KidNone(h, t, idx);
      LinAll(t, idx);
      KidB(t.slots[idx].t);
      RepSize(h, t.slots[idx].t);
    }
  }

  lemma BottomPush(h: Heap, w: u32, stack: seq<Frame>, xs: seq<TSlot>, inode: int, idx: nat)
    requires |xs| == |stack| >= 1 && BottomAt(h, w, stack, xs, inode)
    requires xs[|xs| - 1].TKid? && idx < 64
    ensures var t := xs[|xs| - 1].t; |t.slots| == 64 && 0 <= inode < |h.N| && h.N[inode] == t.nd
    ensures var t := xs[|xs| - 1].t; Bit(t.nd.vector, idx) <==> t.slots[idx].TKid?
    ensures var t := xs[|xs| - 1].t;
            BottomAt(h, w, stack + [Frame(inode, idx)], xs + [t.slots[idx]],
                     if t.slots[idx].TKid? then t.nd.base1 + Rank(t.nd.vector, idx + 1) - 1 else -1)
  {
    hide Rank, Bit, SlotRep, B;
    var t, k := xs[|xs| - 1].t, |xs|;
    KidStands(h, t, idx);
    var xs', stack' := xs + [t.slots[idx]], stack + [Frame(inode, idx)];
    assert xs'[k] == t.slots[idx] && xs'[k - 1] == TKid(t) && stack'[k].idx == idx;
    assert Base(w, xs', k) == t.nd.base1;
  }

  /** The radix tree goes on to the updated route. */
  lemma DownOne(mode: Mode, c0: Cur, c1: Cur, prefix: u32, len: nat, depth: nat, route: Option<u16>)
    requires depth + 6 < len <= 32 && Toward(mode, c0, c1, Top(prefix, len), len - depth, route)
    ensures Chunk(prefix, depth, 6) < 64
    ensures var idx := Chunk(prefix, depth, 6);
            && Toward(mode, SubN(c0, idx, 6), SubN(c1, idx, 6), Top(prefix, len), len - depth - 6, route)
            && !IsLeaf(SubN(c1, idx, 6))
  {
    hide Chunk, SubN, Toward, IsLeaf;
    Pow2At6();
    var idx := Chunk(prefix, depth, 6);
    ChunkOnPath(prefix, len, depth, 6, idx);
    TowardSub(mode, c0, c1, Top(prefix, len), len - depth, route, idx, 6);
    TowardNotLeaf(mode, SubN(c0, idx, 6), SubN(c1, idx, 6), Top(prefix, len), len - depth - 6, route);
  }

  method DescendAndUpdate(p: Poptrie, tnode: RadixNode, inode: int, stack: seq<Frame>, prefix: u32, len: nat,
          depth: nat,
                          d: array<u32>, i: nat, ghost xs: seq<TSlot>, ghost sh: Shape,
                          ghost mode: Mode, ghost c0: Cur, ghost c1: Cur, ghost route: Option<u16>,
                              ghost W: set<object>)
    returns (ok: bool, ghost e: TSlot, ghost hb: Heap, ghost ha: Heap, ghost sw: nat)
    requires p.Mem() && i < d.Length && |xs| == |stack| >= 1 && Traced(p.H(), d[i], stack, xs)
    requires BottomAt(p.H(), d[i], stack, xs, inode)
    requires 18 <= depth < len <= 32 && depth == 18 + 6 * (|stack| - 1)
    requires sh.Fork? && tnode == sh.o && Linked(sh) && Sees(Copy(tnode), sh.l, sh.r, depth, c1, W)
    requires Toward(mode, c0, c1, Top(prefix, len), len - depth, route)
    requires d !in p.Foot() && p !in p.Foot() && d == p.dir && W !! p.Foot() && p !in W
    modifies p.Foot(), d, p`root, p`trace
    ensures p.Mem()
    ensures !ok ==> Grows(old(p.H()), p.H()) && p.Fails() > old(p.Fails()) && d[..] == old(d[..])
    ensures ok ==>
      && p.Fails() == old(p.Fails()) && d[..] == old(d[..])[i := d[i]]
      && StripSlot(e) == (if Lost(xs, stack, c1, prefix, len, depth) then StripSlot(xs[0])
                          else PatchUp(xs, stack, |xs| - 1,
                            Target(StripSlot(xs[|xs| - 1]), c1, prefix, len, depth, |stack| == 1)))
      && Switched(old(p.H()), hb, ha, p.H(), old(d[i]), xs[0], d[i], e)
    ensures !ok ==> Quiet(old(p.trace), p.trace, Blocks(old(p.H())), 2 * Posts(c1) + 11)
    ensures ok ==> Handed(old(p.trace), p.trace, sw, hb, ha, d[..], EntryB(old(d[i]), xs[0]) - EntryB(d[i], e),
                          2 * Posts(c1) + 11)
    decreases len - depth
  {
    hide Poptrie.Mem, Poptrie.Fails, Poptrie.Foot, Grows, Traced, Strip, StripSlot, Blocks, PatchUp, BottomAt, SubN,
         Chunk, Rank,
         Switched, EntryAt, Rebuild, Degenerate, Sees, VecBt, PopcntLs, Linked, Objs, Toward,
         Bit, IsLeaf, Target, Compress, Lost, Missed, Quiet, Handed, EntryB, Need, Posts;
    p.FootHeld();
    ghost var t0, h0 := p.trace, p.H();
    ghost var x := xs[|xs| - 1];
    ghost var top := |stack| == 1;
    if len <= depth + 6 || inode < 0 {
      // the top of the marked part, or no node to go through
      BottomLeaf(p.H(), d[i], stack, xs, inode);
      StripKinds(x);
      RefreshHere(StripSlot(x), c1, prefix, len, depth, top);
      LostHere(xs, stack, c1, prefix, len, depth);
      NeedPosts(c1);
      ok, e, hb, ha, sw := UpdatePart(p, Copy(tnode), inode, stack, d, i, false, xs, sh.l, sh.r, depth, c1, W);
      AtMost(t0, p.trace, Blocks(h0), sw, hb, ha, d[..], EntryB(old(d[i]), xs[0]) - EntryB(d[i], e),
             Need(c1) + 2 * |stack| + 3, 2 * Posts(c1) + 11, ok);
      return;
    }
    var idx := Chunk(prefix, depth, 6);
    BottomLeaf(p.H(), d[i], stack, xs, inode);
    Pow2At6();
    BottomPush(p.H(), d[i], stack, xs, inode, idx);
    TracedPush(p.H(), d[i], stack, xs, inode, idx);
    DownOne(mode, c0, c1, prefix, len, depth, route);
    LostStep(xs, stack, Frame(inode, idx), c1, prefix, len, depth);
    RefreshStep(x.t, c1, prefix, len, depth, top);
    var node := p.nodes[inode];
    var child := -1;
    if VecBt(node.vector, idx) {
      var n := PopcntLs(node.vector, idx);
      child := node.base1 + n - 1;
    }
    NextBlockSees(sh, Copy(tnode), sh.l, sh.r, depth, c1, W, idx, 0, 6);
    var ntnode := NextBlock(tnode, idx, 0, 6, sh);
    // the radix tree goes on to the updated route, so there is a next block
    assert ntnode != null;
    var stack' := stack + [Frame(inode, idx)];
    ghost var xs' := xs + [x.t.slots[idx]];
    ok, e, hb, ha, sw := DescendAndUpdate(p, ntnode, child, stack', prefix, len, depth + 6, d, i, xs',
                                          NextShape(sh, idx, 6), mode, SubN(c0, idx, 6), SubN(c1, idx, 6), route, W);
    SubPosts(c1, idx, 6);
    AtMost(t0, p.trace, Blocks(h0), sw, hb, ha, d[..], EntryB(old(d[i]), xs[0]) - EntryB(d[i], e),
           2 * Posts(SubN(c1, idx, 6)) + 11, 2 * Posts(c1) + 11, ok);
    StepPatch(xs, stack, x.t.slots[idx], Frame(inode, idx), StripSlot(x.t.slots[idx]), SubN(c1, idx, 6), prefix, len,
        depth + 6);
  }

  lemma NeedPosts(c: Cur)
    ensures Need(c) <= 2 * Posts(c) + 2
  {}

  lemma AtMost(t0: seq<Moment>, t1: seq<Moment>, S: set<Blk>, sw: nat, hb: Heap, ha: Heap, ds: seq<u32>, F: set<Blk>,
               n: nat, n': nat, ok: bool)
    requires n <= n' && if ok then Handed(t0, t1, sw, hb, ha, ds, F, n) else Quiet(t0, t1, S, n)
    ensures if ok then Handed(t0, t1, sw, hb, ha, ds, F, n') else Quiet(t0, t1, S, n')
  {
    hide Quiet, Handed;
    if ok { HandLess(t0, t1, sw, hb, ha, ds, F, n, n'); } else { QuietLess(t0, t1, S, n, S, n'); }
  }

  lemma BottomLeaf(h: Heap, w: u32, stack: seq<Frame>, xs: seq<TSlot>, inode: int)
    requires |xs| == |stack| >= 1 && BottomAt(h, w, stack, xs, inode)
    ensures inode < 0 <==> xs[|xs| - 1].TLeaf?
  {}

  lemma StripKinds(x: TSlot)
    ensures StripSlot(x).Leaf? <==> x.TLeaf?
  {}

  lemma StepPatch(xs: seq<TSlot>, stack: seq<Frame>, s: TSlot, f: Frame, o: Slot, c: Cur, prefix: u32, len: nat,
          depth: nat)
    requires |xs| == |stack| >= 1 && len <= 32
    ensures var n := PatchSlot(xs[|xs| - 1], f.idx, Compress(Refresh(o, c, prefix, len, depth)));
      PatchUp(xs + [s], stack + [f], |xs|, Target(o, c, prefix, len, depth, false)) ==
      PatchUp(xs, stack, |xs| - 1, if |stack| == 1 then Kid(n) else Compress(n))
  {
    hide PatchSlot, Compress, Refresh;
    var rep := Compress(Refresh(o, c, prefix, len, depth));
    var xs', stack', k := xs + [s], stack + [f], |xs| - 1;
    var n := PatchSlot(xs[k], f.idx, rep);
    assert xs'[k] == xs[k] && stack'[k + 1] == f;
    PatchUpPrefix(xs, stack, s, f, k, if k == 0 then Kid(n) else Compress(n));
  }
}
