/** _update_part below the root of an entry: compress upwards while a node is left with one next
    hop, rebuild the node around the changed slot, and store it in place or up to the root. */
module Part {
  import opened Bits
  import opened BuddyModel
  import opened Rib
  import opened Trie
  import opened Overlook
  import opened Radix
  import opened Triangle
  import opened Store
  import opened Sharing
  import opened Trace
  import opened Cost
  import opened PoptrieState
  import opened Build
  import opened Clean
  import opened Splice
  import opened Entries

  /** struct poptrie_stack: the node structure at inode was left through slot idx.  A bottom
      frame with a negative idx ends the stack. */
  datatype Frame = Frame(inode: int, idx: int)

  /** The node o with slot i replaced. */
  function PatchSlot(o: TSlot, i: int, rep: Slot): Trie {
    if o.TKid? && 0 <= i < |o.t.slots| then Trie(Strip(o.t).slots[i := rep]) else Trie([])
  }

  /** The entry after slot stack[k].idx of the node xs[k - 1] became rep, and so on upwards: below
      the top, a node left with a single next hop becomes a leaf of its parent. */
  function PatchUp(xs: seq<TSlot>, stack: seq<Frame>, k: nat, rep: Slot): Slot
    requires k < |xs| == |stack|
  {
    if k == 0 then rep
    else
      var n := PatchSlot(xs[k - 1], stack[k].idx, rep);
      PatchUp(xs, stack, k - 1, if k == 1 then Kid(n) else Compress(n))
  }

  /** The block in which the node structure of xs[k] lies, and its place there. */
  ghost function Base(w: u32, xs: seq<TSlot>, k: nat): nat
    requires k < |xs|
  {
    if k > 0 && xs[k - 1].TKid? then xs[k - 1].t.nd.base1 else w
  }

  ghost function Spot(w: u32, stack: seq<Frame>, xs: seq<TSlot>, k: nat): int
    requires k < |xs| && k < |stack|
  {
    if k > 0 && xs[k - 1].TKid? && stack[k].idx >= 0
    then xs[k - 1].t.nd.base1 + Rank(xs[k - 1].t.nd.vector, stack[k].idx + 1) - 1 else w
  }

  /** The node xs[k] is stored at inode, in a block that it does not own. */
  ghost predicate Stands(h: Heap, w: u32, stack: seq<Frame>, xs: seq<TSlot>, k: nat, inode: int) {
    && k < |xs| && k < |stack| && xs[k].TKid? && |xs[k].t.slots| == 64 && SlotRep(h, xs[k])
    && 0 <= inode < |h.N| && h.N[inode] == xs[k].t.nd && inode == Spot(w, stack, xs, k)
    && var b := Base(w, xs, k);
       b in h.ln && b <= inode < b + Pow2(h.ln[b]) && NB(b) !in B(xs[k].t)
  }

  /** Frame k leads from the node xs[k - 1] to its slot xs[k]. */
  ghost predicate FrameAt(h: Heap, w: u32, stack: seq<Frame>, xs: seq<TSlot>, k: nat) {
    && 1 <= k < |xs| == |stack| && Stands(h, w, stack, xs, k - 1, stack[k].inode)
    && 0 <= stack[k].idx < 64 && xs[k - 1].t.slots[stack[k].idx] == xs[k]
  }

  /** The stack leads from the entry (w, xs[0]) down to the slot xs[|xs| - 1]. */
  ghost predicate Traced(h: Heap, w: u32, stack: seq<Frame>, xs: seq<TSlot>) {
    && |xs| == |stack| >= 1 && stack[0].idx < 0 && EntryAt(h, w, xs[0])
    && forall k :: 1 <= k < |stack| ==> FrameAt(h, w, stack, xs, k)
  }

  lemma StandsAnchored(h: Heap, w: u32, stack: seq<Frame>, xs: seq<TSlot>, k: nat, inode: int)
    requires Stands(h, w, stack, xs, k, inode)
    ensures Anchored(h, inode, xs[k]) && SlotRep(h, xs[k])
  {
    var b := Base(w, xs, k);
    assert b in h.ln && b <= inode < b + Pow2(h.ln[b]);
  }

  /** What the update reads at frame k while building beside the old tree. */
  lemma FrameFacts(h0: Heap, h: Heap, w: u32, stack: seq<Frame>, xs: seq<TSlot>, k: nat)
    requires Traced(h0, w, stack, xs) && 1 <= k < |stack| && Grows(h0, h)
    ensures 0 <= stack[k].idx < 64 && xs[k - 1].TKid? && |xs[k - 1].t.slots| == 64
    ensures xs[k - 1].t.slots[stack[k].idx] == xs[k] && SlotRep(h0, xs[k - 1])
    ensures 0 <= stack[k].inode < |h.N| && h.N[stack[k].inode] == xs[k - 1].t.nd
    ensures Anchored(h, stack[k].inode, xs[k - 1])
    ensures VectorOK(xs[k - 1].t.nd.vector, xs[k - 1].t.slots)
    ensures k > 1 ==> stack[k - 1].idx >= 0
    ensures k == 1 ==> stack[k - 1].idx < 0
  {
    hide SlotRep, Grows, Anchored, EntryAt, Spot, Base;
    assert FrameAt(h0, w, stack, xs, k);
    if k > 1 { assert FrameAt(h0, w, stack, xs, k - 1); }
    hide Stands;
    StandsAnchored(h0, w, stack, xs, k - 1, stack[k].inode);
    AnchoredGrows(h0, h, stack[k].inode, xs[k - 1]);
    AnchoredNode(h, stack[k].inode, xs[k - 1]);
    StandsSize(h0, w, stack, xs, k - 1, stack[k].inode);
    RepVector(h0, xs[k - 1].t);
  }

  lemma StandsSize(h: Heap, w: u32, stack: seq<Frame>, xs: seq<TSlot>, k: nat, inode: int)
    requires Stands(h, w, stack, xs, k, inode)
    ensures k < |xs| && k < |stack| && xs[k].TKid? && |xs[k].t.slots| == 64 && SlotRep(h, xs[k])
  {}

  lemma RepVector(h: Heap, t: Tree)
    requires SlotRep(h, TKid(t))
    ensures VectorOK(t.nd.vector, t.slots)
  {
    RepSize(h, t);
  }

  // ----- the leaves and children around the replaced slot

  /** The loop over the leaves of a node of which slot idx has become s: old next hops from the
      leaf block, sleaf for the replaced slot. */
  method ScanLeaves(p: Poptrie, node: PNode, vector: u64, idx: nat, sleaf: u16, ghost inode: int, ghost q: Tree,
          ghost s: TSlot)
    returns (leafvec: u64, leaves: seq<u16>)
    requires Anchored(p.H(), inode, TKid(q)) && node == q.nd && |q.slots| == 64 && idx < 64
    requires VectorOK(vector, q.slots[idx := s]) && (s.TLeaf? ==> s.v == sleaf)
    ensures LeafvecOK(leafvec, q.slots[idx := s]) && leaves == Runs(q.slots[idx := s], 64)
  {
    hide Anchored, Bit, Rank, Runs, StartsRun, VecBt, PopcntLs, Poptrie.Foot;
    ghost var ts := q.slots[idx := s];
    var prev: int;
    leafvec, leaves, prev := 0, [], -1;
    LeafEncStart();
    var i := 0;
    while i < 64
      invariant 0 <= i <= 64 && LeafEnc(leafvec, leaves, prev, ts[..i])
    {
      assert ts[..i + 1] == ts[..i] + [ts[i]];
      KidAnchored(p.H(), inode, TKid(q), i);
      if !VecBt(vector, i) {
        var v := sleaf;
        if i != idx {
          var k := PopcntLs(node.leafvec, i);
          v := p.leaves[node.base0 + k - 1];
        }
        leafvec, leaves, prev := PushLeaf(leafvec, leaves, prev, i, v, ts[..i]);
      } else {
        LeafEncKid(leafvec, leaves, prev, ts[..i], ts[i].t);
      }
      i := i + 1;
    }
    assert ts[..64] == ts;
    LeafEncDone(leafvec, leaves, prev, ts);
  }

  /** The loops that copy the children of a node of which slot idx has become s. */
  method CopyKids(p: Poptrie, node: PNode, vector: u64, idx: nat, child: PNode, ghost inode: int, ghost q: Tree,
          ghost s: TSlot)
    returns (items: seq<PNode>)
    requires Anchored(p.H(), inode, TKid(q)) && node == q.nd && |q.slots| == 64 && idx < 64
    requires VectorOK(vector, q.slots[idx := s]) && (s.TKid? ==> s.t.nd == child)
    ensures items == KidNodes(q.slots[idx := s], 64)
  {
    hide Anchored, Bit, Rank, VecBt, PopcntLs, Poptrie.Foot;
    ghost var ts := q.slots[idx := s];
    items := [];
    var i := 0;
    while i < 64
      invariant 0 <= i <= 64 && items == KidNodes(ts, i)
    {
      if VecBt(vector, i) {
        if i == idx {
          items := items + [child];
        } else {
          KidAnchored(p.H(), inode, TKid(q), i);
          var k := PopcntLs(node.vector, i);
          AnchoredNode(p.H(), node.base1 + k - 1, q.slots[i]);
          items := items + [p.nodes[node.base1 + k - 1]];
        }
      }
      i := i + 1;
    }
  }

  lemma PlacedReversed(h: Heap, h1: Heap, h2: Heap, nd: PNode, ts: seq<TSlot>)
    requires |ts| == 64 && VectorOK(nd.vector, ts) && LeafvecOK(nd.leafvec, ts)
    requires PlacedLeaves(h, h1, nd.base0, Runs(ts, 64))
    requires PlacedNodes(h1, h2, nd.base1, KidNodes(ts, 64))
    ensures Placed(h, h2, nd, ts)
  {
    hide VectorOK, LeafvecOK, KidNodes, Runs, Grows;
    GrowsTransitive(h, h1, h2);
  }

  /** The node around the replaced slot, built in fresh blocks. */
  lemma NodeRebuilt(h0: Heap, h: Heap, h': Heap, q: Tree, i: nat, s: TSlot, nd: PNode)
    requires SlotRep(h0, TKid(q)) && i < 64 && |q.slots| == 64 && SlotBuilt(h0, h, q.slots[i], s)
    requires Placed(h, h', nd, q.slots[i := s])
    ensures SlotBuilt(h0, h', TKid(q), TKid(Tree(nd, q.slots[i := s])))
  {
    hide SlotBuilt, Placed, SlotRep, Batch;
    BatchReplace(h0, h, q, i, s);
    PlacedDone(h0, h, h', TKid(q), q.slots[i := s], nd);
  }

  lemma StripReplace(q: Tree, i: nat, s: TSlot, nd: PNode)
    requires i < |q.slots|
    ensures Strip(Tree(nd, q.slots[i := s])) == PatchSlot(TKid(q), i, StripSlot(s))
  {
    var a, b := Strip(Tree(nd, q.slots[i := s])), PatchSlot(TKid(q), i, StripSlot(s));
    assert forall j :: 0 <= j < |q.slots| ==>
        a.slots[j] == StripSlot(q.slots[i := s][j]) && Strip(q).slots[j] == StripSlot(q.slots[j]);
    assert a.slots == b.slots;
  }

  /** The test for vertical compression finds exactly the nodes left with one next hop. */
  lemma OneLeafLeft(q: Tree, i: nat, v: u16, vector: u64)
    requires |q.slots| == 64 && i < 64 && VectorOK(vector, q.slots[i := TLeaf(v)])
    ensures var n := PatchSlot(TKid(q), i, Leaf(v)); var ts := q.slots[i := TLeaf(v)];
            && (Degenerate(n) <==> |Runs(ts, 64)| == 1 && Rank(vector, 64) == 0)
            && (Degenerate(n) ==> Compress(n) == Leaf(v))
  {
    hide Rank, Runs, Bit;
    var ts := q.slots[i := TLeaf(v)];
    StripReplace(q, i, TLeaf(v), q.nd);
    var t := Tree(q.nd, ts);
    DegenerateMeans(t);
    RankIsKids(vector, ts, 64);
    assert Strip(t).slots[i] == StripSlot(ts[i]) == Leaf(v);
  }

  lemma ClearedVector(vector: u64, slots: seq<TSlot>, i: nat, v: u16)
    requires VectorOK(vector, slots) && i < 64
    ensures VectorOK(if VecBt(vector, i) then VecClear(vector, i) else vector, slots[i := TLeaf(v)])
  {
    hide Bit, VecBt, VecClear;
  }

  lemma SetVector(vector: u64, slots: seq<TSlot>, i: nat, t: Tree)
    requires VectorOK(vector, slots) && i < 64
    ensures VectorOK(VecSet(vector, i), slots[i := TKid(t)])
    ensures slots[i].TKid? ==> VectorOK(vector, slots[i := TKid(t)])
  {
    hide Bit, VecSet;
  }

  /** A leaf vector is determined by the slots. */
  lemma CanonicalLeafvec(a: u64, b: u64, slots: seq<TSlot>)
    requires LeafvecOK(a, slots) && LeafvecOK(b, slots)
    ensures a == b
  {
    hide Bit, StartsRun;
    Pow2At64();
    SameDigits(a, b, 64);
  }

  lemma {:induction false} RunsEnd(t: Tree, n: nat)
    requires n <= |t.slots|
    ensures var r := Runs(t.slots, n); LeafBefore(Strip(t).slots, n) == if r == [] then None else Some(r[|r| - 1])
  {
    if n > 0 {
      RunsEnd(t, n - 1);
      assert Strip(t).slots[n - 1] == StripSlot(t.slots[n - 1]);
    }
  }

  lemma StartsAlike(t: Tree, i: nat)
    requires i < |t.slots|
    ensures StartsRun(t.slots, i) <==> Starts(Strip(t).slots, i)
  {
    hide Runs, LeafBefore;
    RunsEnd(t, i);
    assert Strip(t).slots[i] == StripSlot(t.slots[i]);
  }

  /** Comparing two leaf vectors is comparing where the runs of leaves start. */
  lemma LeafvecTells(a: u64, b: u64, t: Tree, u: Tree)
    requires LeafvecOK(a, t.slots) && LeafvecOK(b, u.slots)
    ensures a == b <==> SameRuns(Strip(t).slots, Strip(u).slots)
  {
    hide Bit, Strip, Starts, StartsRun;
    forall i | 0 <= i < 64
      ensures Bit(a, i) == Starts(Strip(t).slots, i) && Bit(b, i) == Starts(Strip(u).slots, i)
    {
      StartsAlike(t, i);
      StartsAlike(u, i);
    }
    if SameRuns(Strip(t).slots, Strip(u).slots) {
      Pow2At64();
      forall i | 0 <= i < 64 ensures Bit(a, i) == Bit(b, i) {
        assert Starts(Strip(t).slots, i) == Starts(Strip(u).slots, i);
      }
      SameDigits(a, b, 64);
    }
  }

  /** Putting back what was there changes nothing. */
  lemma {:induction false} PatchSame(h: Heap, w: u32, stack: seq<Frame>, xs: seq<TSlot>, k: nat)
    requires Traced(h, w, stack, xs) && k < |xs| && (k == 0 || xs[k].TKid?)
    ensures |xs| == |stack| && PatchUp(xs, stack, k, StripSlot(xs[k])) == StripSlot(xs[0])
  {
    hide *;
    TracedSize(h, w, stack, xs);
    if k == 0 {
      PatchNone(xs, stack, StripSlot(xs[0]));
    } else {
      PatchSameStep(h, w, stack, xs, k);
      PatchSame(h, w, stack, xs, k - 1);
    }
  }

  lemma PatchNone(xs: seq<TSlot>, stack: seq<Frame>, rep: Slot)
    requires |xs| == |stack| > 0
    ensures PatchUp(xs, stack, 0, rep) == rep
  {}

  lemma PatchSameStep(h: Heap, w: u32, stack: seq<Frame>, xs: seq<TSlot>, k: nat)
    requires Traced(h, w, stack, xs) && 0 < k < |xs| == |stack| && xs[k].TKid?
    ensures xs[k - 1].TKid?
    ensures PatchUp(xs, stack, k, StripSlot(xs[k])) == PatchUp(xs, stack, k - 1, StripSlot(xs[k - 1]))
  {
    hide Traced, Anchored, SlotRep, Strip, PatchSlot, Degenerate, Compress, VectorOK, Grows, StripSlot, PatchUp;
    GrowsSelf(h);
    FrameFacts(h, h, w, stack, xs, k);
    var q, i := xs[k - 1].t, stack[k].idx;
    StripReplace(q, i, xs[k], q.nd);
    assert q.slots[i := xs[k]] == q.slots && q == Tree(q.nd, q.slots);
    StripAt(q, i);
    StripKid(q);
    KidNotDegenerate(Strip(q), i);
    PatchStep(xs, stack, k, StripSlot(xs[k]));
  }

  lemma TracedSize(h: Heap, w: u32, stack: seq<Frame>, xs: seq<TSlot>)
    requires Traced(h, w, stack, xs)
    ensures |xs| == |stack| >= 1 && stack[0].idx < 0 && EntryAt(h, w, xs[0])
  {}

  lemma StripAt(q: Tree, i: nat)
    requires i < |q.slots|
    ensures Strip(q).slots[i] == StripSlot(q.slots[i])
    ensures q.slots[i].TKid? ==> StripSlot(q.slots[i]).Kid?
  {}

  lemma KidNotDegenerate(n: Trie, i: nat)
    requires |n.slots| == 64 && i < 64
    ensures n.slots[i].Kid? ==> Compress(n) == Kid(n)
  {}

  // ----- vertical compression

  /** Memory h was built beside h0; s is to replace xs[k], and the whole entry becomes `want`. */
  ghost predicate Climbing(h0: Heap, h: Heap, stack: seq<Frame>, xs: seq<TSlot>, k: nat, s: TSlot, want: Slot) {
    k < |xs| == |stack| && SlotBuilt(h0, h, xs[k], s) && PatchUp(xs, stack, k, StripSlot(s)) == want
  }

  datatype Step = Failed | Unchanged | Compressed | Rebuilt

  /** The update stops at frame k, taking the changed leaf in its slot for unchanged. */
  ghost predicate Missed(xs: seq<TSlot>, stack: seq<Frame>, k: nat, n: Slot) {
    && 1 <= k < |xs| == |stack| && xs[k - 1].TKid? && 0 <= stack[k].idx < |xs[k - 1].t.slots|
    && Stops(Strip(xs[k - 1].t), stack[k].idx, StripSlot(xs[k]), n, k == 1)
  }

  /** One round of the compression loop: the child in slot stack[k].idx has become one next hop. */
  method CompressFrame(p: Poptrie, stack: seq<Frame>, k: nat, sleaf: u16, ghost h0: Heap, ghost w: u32,
                       ghost xs: seq<TSlot>, ghost want: Slot)
    returns (r: Step, cnodes: PNode, ghost s: TSlot)
    requires p.Mem() && Traced(h0, w, stack, xs) && 1 <= k < |stack|
    requires Climbing(h0, p.H(), stack, xs, k, TLeaf(sleaf), want)
    modifies p.Foot(), p`trace
    ensures p.Mem()
    ensures r.Failed? ==> Grows(h0, p.H()) && p.Fails() > old(p.Fails())
    ensures !r.Failed? ==> p.Fails() == old(p.Fails())
    ensures r.Unchanged? ==> Grows(h0, p.H()) && Blocks(p.H()) == Blocks(h0)
                             && (Missed(xs, stack, k, Leaf(sleaf)) || want == StripSlot(xs[0]))
    ensures r.Compressed? || r.Rebuilt? ==> !Missed(xs, stack, k, Leaf(sleaf)) && xs[k - 1].TKid?
    ensures r.Compressed? ==> k > 1 && Climbing(h0, p.H(), stack, xs, k - 1, TLeaf(sleaf), want)
    ensures r.Compressed? ==> p.H() == old(p.H()) && p.trace == old(p.trace)
    ensures r.Rebuilt? ==> s.TKid? && cnodes == s.t.nd && Climbing(h0, p.H(), stack, xs, k - 1, s, want)
    ensures Quiet(old(p.trace), p.trace, Blocks(old(p.H())), 2)
  {
    hide Poptrie.Mem, Poptrie.Fails, Poptrie.Foot, Grows, Anchored, SlotBuilt, Traced, VectorOK, LeafvecOK, VecBt,
         VecClear, Bit, Rank, Runs, KidNodes, Strip, StripSlot, Blocks, PatchUp, Climbing, SlotRep, Degenerate,
         PlacedLeaves, PlacedNodes, Placed, Missed, Quiet;
    p.FootHeld();
    p.MemTrace();
    ghost var h, t := p.H(), p.trace;
    QuietSelf(t, Blocks(h));
    QuietLess(t, t, Blocks(h), 0, Blocks(h), 2);
    ClimbingParts(h0, h, stack, xs, k, TLeaf(sleaf), want);
    FrameFacts(h0, h, w, stack, xs, k);
    ghost var q := xs[k - 1].t;
    var idx := stack[k].idx;
    s := TLeaf(sleaf);
    ghost var ts := q.slots[idx := s];
    var node := p.nodes[stack[k].inode];
    cnodes := node;
    SlotBit(node.vector, q.slots, idx);
    ClearedVector(node.vector, q.slots, idx, sleaf);
    var vector := if VecBt(node.vector, idx) then VecClear(node.vector, idx) else node.vector;
    var leafvec, leaves := ScanLeaves(p, node, vector, idx, sleaf, stack[k].inode, q, s);
    OneLeafLeft(q, idx, sleaf, vector);
    PatchStep(xs, stack, k, Leaf(sleaf));
    StripLeaf(sleaf);
    StopsWhen(h0, xs, stack, k, sleaf, leafvec);
    if |leaves| == 1 && PopcntVec(vector) == 0 && stack[k - 1].idx >= 0 {
      ClimbLeaf(h0, h, stack, xs, k, sleaf, want);
      return Compressed, cnodes, s;
    }
    if !VecBt(node.vector, idx) && node.leafvec == leafvec {
      // taken for unchanged: so it is, or the change is missed
      BuiltLeaf(h0, h, xs[k], sleaf);
      if xs[k] == TLeaf(sleaf) { NothingChanged(h0, w, stack, xs, k, sleaf); }
      return Unchanged, cnodes, s;
    }
    var ok, base0 := PlaceLeaves(p, leaves);
    QuietLess(t, p.trace, Blocks(h), 1, Blocks(h), 2);
    if !ok { return Failed, cnodes, s; }
    ghost var h1, t1 := p.H(), p.trace;
    p.MemTrace();
    FrameFacts2(h0, h, h1, w, stack, xs, k, base0, leaves);
    var base1 := node.base1;
    if VecBt(node.vector, idx) {
      var items := CopyKids(p, node, vector, idx, cnodes, stack[k].inode, q, s);
      ok, base1 := PlaceNodes(p, items);
      BuildTwice(t, t1, p.trace, 1, 1);
      if !ok { return Failed, cnodes, s; }
      cnodes := PNode(leafvec, vector, base0, base1);
      PlacedReversed(h, h1, p.H(), cnodes, ts);
      NodeRebuilt(h0, h, p.H(), q, idx, s, cnodes);
    } else {
      // a leaf has changed: new leaves, and the children where they are
      cnodes := PNode(leafvec, vector, base0, base1);
      LeavesReplaced(h0, h, h1, q, idx, sleaf, cnodes);
    }
    StripReplace(q, idx, s, cnodes);
    s := TKid(Tree(cnodes, ts));
    StripKid(Tree(cnodes, ts));
    ClimbingIntro(h0, p.H(), stack, xs, k - 1, s, want);
    r := Rebuilt;
  }

  /** When the update stops: the node stays, and the leaf vector with the new leaf is the old one. */
  lemma StopsWhen(h: Heap, xs: seq<TSlot>, stack: seq<Frame>, k: nat, v: u16, leafvec: u64)
    requires 1 <= k < |xs| == |stack| && xs[k - 1].TKid? && SlotRep(h, xs[k - 1]) && 0 <= stack[k].idx < 64
    requires |xs[k - 1].t.slots| == 64 && xs[k - 1].t.slots[stack[k].idx] == xs[k]
    requires LeafvecOK(leafvec, xs[k - 1].t.slots[stack[k].idx := TLeaf(v)])
    ensures Missed(xs, stack, k, Leaf(v)) <==>
      && xs[k].TLeaf? && xs[k].v != v && leafvec == xs[k - 1].t.nd.leafvec
      && (k == 1 || !Degenerate(PatchSlot(xs[k - 1], stack[k].idx, Leaf(v))))
    ensures xs[k] == TLeaf(v) ==> leafvec == xs[k - 1].t.nd.leafvec
  {
    hide LeafvecOK, Degenerate, Rep, SameRuns, Strip;
    var q, i := xs[k - 1].t, stack[k].idx;
    var u := Tree(q.nd, q.slots[i := TLeaf(v)]);
    RepSize(h, q);
    NodeLeafvec(h, q);
    LeafvecTells(leafvec, q.nd.leafvec, u, q);
    StripReplace(q, i, TLeaf(v), q.nd);
    StripLeaf(v);
    SameRunsBoth(Strip(q).slots, Strip(u).slots);
    if xs[k] == TLeaf(v) {
      assert q.slots[i := TLeaf(v)] == q.slots;
      CanonicalLeafvec(leafvec, q.nd.leafvec, q.slots);
    }
  }

  /** And when only its leaf block is replaced: a leaf changes, the node stays, and so does not its leaf
      vector. */
  lemma ReleafsWhen(h: Heap, xs: seq<TSlot>, stack: seq<Frame>, k: nat, v: u16, leafvec: u64)
    requires 1 <= k < |xs| == |stack| && xs[k - 1].TKid? && SlotRep(h, xs[k - 1]) && 0 <= stack[k].idx < 64
    requires |xs[k - 1].t.slots| == 64 && xs[k - 1].t.slots[stack[k].idx] == xs[k]
    requires LeafvecOK(leafvec, xs[k - 1].t.slots[stack[k].idx := TLeaf(v)])
    ensures Releafs(Strip(xs[k - 1].t), stack[k].idx, StripSlot(xs[k]), Leaf(v), k == 1) <==>
      && xs[k].TLeaf? && leafvec != xs[k - 1].t.nd.leafvec
      && (k == 1 || !Degenerate(PatchSlot(xs[k - 1], stack[k].idx, Leaf(v))))
  {
    hide LeafvecOK, Degenerate, Rep, SameRuns, Strip;
    var q, i := xs[k - 1].t, stack[k].idx;
    StopsWhen(h, xs, stack, k, v, leafvec);
    var u := Tree(q.nd, q.slots[i := TLeaf(v)]);
    RepSize(h, q);
    NodeLeafvec(h, q);
    LeafvecTells(leafvec, q.nd.leafvec, u, q);
    StripReplace(q, i, TLeaf(v), q.nd);
    StripLeaf(v);
    SameRunsBoth(Strip(q).slots, Strip(u).slots);
  }

  lemma SameRunsBoth(a: seq<Slot>, b: seq<Slot>)
    ensures SameRuns(a, b) <==> SameRuns(b, a)
  {
    if SameRuns(a, b) { forall i | 0 <= i < |b| ensures Starts(b, i) == Starts(a, i) {} }
    if SameRuns(b, a) { forall i | 0 <= i < |a| ensures Starts(a, i) == Starts(b, i) {} }
  }

  lemma {:induction false} KidNodesLeaf(slots: seq<TSlot>, i: nat, v: u16, n: nat)
    requires i < |slots| && n <= |slots| && slots[i].TLeaf?
    ensures KidNodes(slots[i := TLeaf(v)], n) == KidNodes(slots, n)
  {
    if n > 0 { KidNodesLeaf(slots, i, v, n - 1); }
  }

  lemma {:induction false} RunsOfLeaf(slots: seq<TSlot>, i: nat, n: nat)
    requires i < n <= |slots| && slots[i].TLeaf?
    ensures Runs(slots, n) != []
  {
    LastRun(slots, i);
    RunsPrefix(slots, i + 1, n);
  }

  /** The node with one leaf changed: a new leaf block, and the old child block. */
  lemma LeavesReplaced(h0: Heap, h: Heap, h': Heap, q: Tree, i: nat, v: u16, nd: PNode)
    requires SlotRep(h0, TKid(q)) && i < 64 && |q.slots| == 64 && q.slots[i].TLeaf?
    requires SlotBuilt(h0, h, q.slots[i], TLeaf(v))
    requires PlacedLeaves(h, h', nd.base0, Runs(q.slots[i := TLeaf(v)], 64))
    requires VectorOK(nd.vector, q.slots[i := TLeaf(v)]) && LeafvecOK(nd.leafvec, q.slots[i := TLeaf(v)])
    requires nd.vector == q.nd.vector && nd.base1 == q.nd.base1
    ensures SlotBuilt(h0, h', TKid(q), TKid(Tree(nd, q.slots[i := TLeaf(v)])))
  {
    hide Rep, Lin, Grows, Blocks, KidNodes, Runs, VectorOK, LeafvecOK, B, SlotB, Own;
    var ts := q.slots[i := TLeaf(v)];
    var t := Tree(nd, ts);
    BuiltBlocks(h0, h, q.slots[i], TLeaf(v));
    LeafB(v);
    GrowsTransitive(h0, h, h');
    StandsLin(h0, q);
    RepGrows(h0, h', q);
    RunsOfLeaf(ts, i, 64);
    LeavesRep(h', q, i, v, nd);
    LeavesB(q, i, v, nd);
    OwnInB(q);
    OwnParts(q.nd);
    OwnParts(nd);
    LeavesLin(q, i, v, nd, Blocks(h0));
    KidB(t);
    assert Blocks(h') == Blocks(h0) + B(t);
    assert KidsSame(t, q);
    assert Shares(t, q, Blocks(h0));
  }

  lemma LeafB(v: u16)
    ensures SlotB(TLeaf(v)) == {}
  {}

  lemma OwnParts(nd: PNode)
    ensures NB(nd.base1) in Own(nd) <==> nd.base1 != NONE
    ensures LB(nd.base0) in Own(nd) <==> nd.base0 != NONE
    ensures forall b :: b in Own(nd) ==> b == NB(nd.base1) || b == LB(nd.base0)
  {}

  lemma LeavesRep(h: Heap, q: Tree, i: nat, v: u16, nd: PNode)
    requires Rep(h, q) && i < 64 && |q.slots| == 64 && q.slots[i].TLeaf?
    requires VectorOK(nd.vector, q.slots[i := TLeaf(v)]) && LeafvecOK(nd.leafvec, q.slots[i := TLeaf(v)])
    requires nd.base1 == q.nd.base1 && Stored(h.L, nd.base0, Runs(q.slots[i := TLeaf(v)], 64))
    requires nd.base0 != NONE ==> nd.base0 in h.ll && Snug(|Runs(q.slots[i := TLeaf(v)], 64)|, h.ll[nd.base0])
    ensures Rep(h, Tree(nd, q.slots[i := TLeaf(v)]))
  {
    hide VectorOK, LeafvecOK, KidNodes, Runs;
    RepSize(h, q);
    KidNodesLeaf(q.slots, i, v, 64);
  }

  /** The blocks of the changed node: the old ones but for the leaf block. */
  lemma LeavesB(q: Tree, i: nat, v: u16, nd: PNode)
    requires i < 64 && |q.slots| == 64 && q.slots[i].TLeaf?
    ensures B(Tree(nd, q.slots[i := TLeaf(v)])) == Own(nd) + SlotsB(q.slots, 64)
    ensures SlotsB(q.slots, 64) <= B(q)
  {
    hide Own;
    SameSlotsB(q.slots[i := TLeaf(v)], q.slots, 64);
    BParts(q);
    BParts(Tree(nd, q.slots[i := TLeaf(v)]));
  }

  lemma LeavesLin(q: Tree, i: nat, v: u16, nd: PNode, S: set<Blk>)
    requires Lin(q) && i < 64 && |q.slots| == 64 && q.slots[i].TLeaf? && B(q) <= S
    requires nd.base1 == q.nd.base1 && LB(nd.base0) !in S
    ensures Lin(Tree(nd, q.slots[i := TLeaf(v)]))
  {
    hide Lin, B, SlotB, Own;
    var ts := q.slots[i := TLeaf(v)];
    LeafB(v);
    OwnParts(nd);
    OwnParts(q.nd);
    forall j, k | 0 <= j < k < 64 ensures SlotB(ts[j]) !! SlotB(ts[k]) { LinAll(q, j); }
    forall j | 0 <= j < 64 ensures Own(nd) !! SlotB(ts[j]) {
      LinAll(q, j);
      SlotInB(q, j);
    }
    forall j | 0 <= j < 64 && ts[j].TKid? ensures Lin(ts[j].t) { LinAll(q, j); }
    LinIntro(Tree(nd, ts));
  }

  lemma ClimbingParts(h0: Heap, h: Heap, stack: seq<Frame>, xs: seq<TSlot>, k: nat, s: TSlot, want: Slot)
    requires Climbing(h0, h, stack, xs, k, s, want)
    ensures k < |xs| == |stack| && SlotBuilt(h0, h, xs[k], s) && Grows(h0, h)
    ensures PatchUp(xs, stack, k, StripSlot(s)) == want
  {}

  lemma ClimbingIntro(h0: Heap, h: Heap, stack: seq<Frame>, xs: seq<TSlot>, k: nat, s: TSlot, want: Slot)
    requires k < |xs| == |stack| && SlotBuilt(h0, h, xs[k], s) && PatchUp(xs, stack, k, StripSlot(s)) == want
    ensures Climbing(h0, h, stack, xs, k, s, want)
  {}

  lemma ClimbLeaf(h0: Heap, h: Heap, stack: seq<Frame>, xs: seq<TSlot>, k: nat, v: u16, want: Slot)
    requires k > 0 && Climbing(h0, h, stack, xs, k, TLeaf(v), want)
    requires PatchUp(xs, stack, k - 1, Leaf(v)) == want
    ensures Climbing(h0, h, stack, xs, k - 1, TLeaf(v), want)
  {}

  lemma SlotBit(vector: u64, slots: seq<TSlot>, i: nat)
    requires VectorOK(vector, slots) && i < 64
    ensures |slots| == 64 && VecBt(vector, i) == slots[i].TKid?
  {}

  lemma PatchStep(xs: seq<TSlot>, stack: seq<Frame>, k: nat, rep: Slot)
    requires 1 <= k < |xs| == |stack|
    ensures PatchUp(xs, stack, k, rep) ==
      PatchUp(xs, stack, k - 1,
              if k == 1 then Kid(PatchSlot(xs[k - 1], stack[k].idx, rep))
                else Compress(PatchSlot(xs[k - 1], stack[k].idx, rep)))
  {}

  lemma StripLeaf(v: u16)
    ensures StripSlot(TLeaf(v)) == Leaf(v)
  {}

  lemma StripKid(t: Tree)
    ensures StripSlot(TKid(t)) == Kid(Strip(t))
  {}

  lemma BuiltLeaf(h0: Heap, h: Heap, x: TSlot, v: u16)
    requires SlotBuilt(h0, h, x, TLeaf(v))
    ensures Blocks(h) == Blocks(h0)
  {}

  /** Reading on after the leaf block was placed. */
  lemma FrameFacts2(h0: Heap, h: Heap, h1: Heap, w: u32, stack: seq<Frame>, xs: seq<TSlot>, k: nat, base0: u32,
          leaves: seq<u16>)
    requires Traced(h0, w, stack, xs) && 1 <= k < |stack| && Grows(h0, h) && PlacedLeaves(h, h1, base0, leaves)
    ensures Grows(h0, h1) && Anchored(h1, stack[k].inode, xs[k - 1])
  {
    GrowsTransitive(h0, h, h1);
    FrameFacts(h0, h1, w, stack, xs, k);
  }

  lemma NothingChanged(h: Heap, w: u32, stack: seq<Frame>, xs: seq<TSlot>, k: nat, v: u16)
    requires Traced(h, w, stack, xs) && 1 <= k < |xs| == |stack| && xs[k] == TLeaf(v)
    requires 0 <= stack[k].idx < 64 && xs[k - 1].TKid? && |xs[k - 1].t.slots| == 64
    requires xs[k - 1].t.slots[stack[k].idx] == xs[k]
    requires k == 1 || !Degenerate(PatchSlot(xs[k - 1], stack[k].idx, Leaf(v)))
    ensures PatchUp(xs, stack, k, Leaf(v)) == StripSlot(xs[0])
  {
    hide Degenerate, Strip, Traced;
    var q, i := xs[k - 1].t, stack[k].idx;
    assert q.slots[i := TLeaf(v)] == q.slots;
    StripReplace(q, i, xs[k], q.nd);
    PatchSame(h, w, stack, xs, k - 1);
  }

  lemma NodeLeafvec(h: Heap, q: Tree)
    requires NodeSeen(h.N, h.L, q.nd, q.slots)
    ensures LeafvecOK(q.nd.leafvec, q.slots)
  {}

  // ----- going up with a child

  lemma PatchKid(xs: seq<TSlot>, stack: seq<Frame>, k: nat, t: Tree, nd: PNode)
    requires 1 <= k < |xs| == |stack| && xs[k - 1].TKid? && |xs[k - 1].t.slots| == 64 && 0 <= stack[k].idx < 64
    ensures PatchUp(xs, stack, k, Kid(Strip(t))) ==
            PatchUp(xs, stack, k - 1, Kid(Strip(Tree(nd, xs[k - 1].t.slots[stack[k].idx := TKid(t)]))))
  {
    hide Strip, PatchSlot, Compress;
    var q, i := xs[k - 1].t, stack[k].idx;
    StripKid(t);
    StripReplace(q, i, TKid(t), nd);
    StripAt(Tree(nd, q.slots[i := TKid(t)]), i);
    KidNotDegenerate(Strip(Tree(nd, q.slots[i := TKid(t)])), i);
  }

  /** A leaf slot has become a child: the node around it is built anew with the vector bit set. */
  method GrowFrame(p: Poptrie, stack: seq<Frame>, k: nat, child: PNode, ghost h0: Heap, ghost w: u32,
          ghost xs: seq<TSlot>,
                   ghost t: Tree, ghost want: Slot)
    returns (ok: bool, cnodes: PNode, ghost t': Tree)
    requires p.Mem() && Traced(h0, w, stack, xs) && 1 <= k < |stack|
    requires Climbing(h0, p.H(), stack, xs, k, TKid(t), want) && child == t.nd
    modifies p.Foot(), p`trace
    ensures p.Mem()
    ensures !ok ==> Grows(h0, p.H()) && p.Fails() > old(p.Fails())
    ensures ok ==> p.Fails() == old(p.Fails()) && cnodes == t'.nd
    ensures ok ==> Climbing(h0, p.H(), stack, xs, k - 1, TKid(t'), want)
    ensures Quiet(old(p.trace), p.trace, Blocks(old(p.H())), 2)
  {
    hide Poptrie.Mem, Poptrie.Fails, Poptrie.Foot, Grows, Anchored, SlotBuilt, Traced, VectorOK, LeafvecOK, VecBt,
         VecSet, Quiet,
         Bit, Rank, Runs, KidNodes, Strip, StripSlot, Blocks, PatchUp, Climbing, SlotRep, Degenerate, PlacedLeaves,
         PlacedNodes, Placed;
    p.FootHeld();
    p.MemTrace();
    ghost var h, tr := p.H(), p.trace;
    ClimbingParts(h0, h, stack, xs, k, TKid(t), want);
    FrameFacts(h0, h, w, stack, xs, k);
    ghost var q := xs[k - 1].t;
    var idx := stack[k].idx;
    ghost var s := TKid(t);
    ghost var ts := q.slots[idx := s];
    var node := p.nodes[stack[k].inode];
    cnodes, t' := node, t;
    SetVector(node.vector, q.slots, idx, t);
    var vector := VecSet(node.vector, idx);
    var items := CopyKids(p, node, vector, idx, child, stack[k].inode, q, s);
    var base1;
    ok, base1 := PlaceNodes(p, items);
    QuietLess(tr, p.trace, Blocks(h), 1, Blocks(h), 2);
    if !ok { return; }
    ghost var h1, tr1 := p.H(), p.trace;
    p.MemTrace();
    PlacedNodesGrow(h, h1, base1, items);
    GrowsTransitive(h0, h, h1);
    FrameFacts(h0, h1, w, stack, xs, k);
    var leafvec, leaves := ScanLeaves(p, node, vector, idx, 0, stack[k].inode, q, s);
    var base0;
    ok, base0 := PlaceLeaves(p, leaves);
    BuildTwice(tr, tr1, p.trace, 1, 1);
    if !ok { return; }
    cnodes := PNode(leafvec, vector, base0, base1);
    PlacedBoth(h, h1, p.H(), cnodes, ts);
    NodeRebuilt(h0, h, p.H(), q, idx, s, cnodes);
    t' := Tree(cnodes, ts);
    StripKid(t);
    StripKid(t');
    PatchKid(xs, stack, k, t, cnodes);
    ClimbingIntro(h0, p.H(), stack, xs, k - 1, TKid(t'), want);
  }

  lemma PlacedNodesGrow(h: Heap, h': Heap, base: u32, items: seq<PNode>)
    requires PlacedNodes(h, h', base, items)
    ensures Grows(h, h')
  {}

  // ----- the store in place

  /** A store to one structure of a block leaves everything else alone. */
  lemma StoreOne(h: Heap, ab: nat, at: nat, nd: PNode)
    requires HeapOK(h) && ab in h.ln && ab <= at < ab + Pow2(h.ln[ab])
    ensures at < |h.N| && OneStore(h, StoreNode(h, at, nd), ab, at) && Blocks(StoreNode(h, at, nd)) == Blocks(h)
    ensures AtMostOneStore(h, StoreNode(h, at, nd))
  {
    hide Arena, Blocks;
    WriteN(h, ab, at, [nd]);
    assert Write(h.N, at, [nd]) == h.N[at := nd];
    BlocksOnLive(h, StoreNode(h, at, nd));
  }

  lemma OneStoreLater(h0: Heap, hb: Heap, ha: Heap, ab: nat, at: nat)
    requires Grows(h0, hb) && OneStore(hb, ha, ab, at) && ab in h0.ln
    ensures OneStore(h0, ha, ab, at)
  {
    InBlocks(h0, NB(ab));
    assert KeepsBlock(h0, hb, NB(ab));
    KeepsHas(h0, hb, Blocks(h0));
    KeepsLess(hb, ha, Blocks(hb) - {NB(ab)}, Blocks(h0) - {NB(ab)});
    KeepsLess(h0, hb, Blocks(h0), Blocks(h0) - {NB(ab)});
    KeepsTransitive(h0, hb, ha, Blocks(h0) - {NB(ab)});
  }

  /** The situation of an in-place store: node q at `at`, in block ab, gets the child t in slot i;
      hb has the new child block base1, and ha the changed node structure. */
  ghost predicate Stored1(h0: Heap, h: Heap, hb: Heap, ha: Heap, ab: nat, at: nat, q: Tree, i: nat, t: Tree,
          base1: u32) {
    && SlotRep(h0, TKid(q)) && |q.slots| == 64 && i < 64 && q.slots[i].TKid?
    && SlotBuilt(h0, h, q.slots[i], TKid(t))
    && PlacedNodes(h, hb, base1, KidNodes(q.slots[i := TKid(t)], 64))
    && OneStore(hb, ha, ab, at) && Blocks(ha) == Blocks(hb) && OneStore(h0, ha, ab, at)
    && NB(ab) in Blocks(h0) && NB(ab) !in B(q)
    && at < |ha.N| && ha.N[at] == q.nd.(base1 := base1)
  }

  function Stepped(q: Tree, i: nat, t: Tree, base1: u32): Tree
    requires i < |q.slots|
  {
    Tree(q.nd.(base1 := base1), q.slots[i := TKid(t)])
  }

  lemma StoredSlots(h0: Heap, h: Heap, hb: Heap, ha: Heap, ab: nat, at: nat, q: Tree, i: nat, t: Tree, base1: u32)
    requires Stored1(h0, h, hb, ha, ab, at, q, i, t, base1)
    ensures var ts := q.slots[i := TKid(t)];
      && Batch(h0, h, TKid(q), ts)
      && (forall j :: 0 <= j < 64 ==> SlotRep(ha, ts[j]) && SlotB(ts[j]) <= Blocks(h))
  {
    hide Rep, Lin, Grows, Shares, OneStore, B, SlotB, KidNodes, Stored;
    var ts := q.slots[i := TKid(t)];
    BatchReplace(h0, h, q, i, TKid(t));
    ReplaceDisjoint(h0, h, q, i, TKid(t));
    forall j | 0 <= j < 64 ensures SlotRep(ha, ts[j]) && SlotB(ts[j]) <= Blocks(h) {
      assert SlotRep(h, ts[j]);
      SlotRepBlocks(h, ts[j]);
      SlotRepGrows(h, hb, ts[j]);
      SlotInB(q, j);
      SlotInB(q, i);
      TreeKept(hb, ha, ab, at, ts[j]);
    }
  }

  /** The stored node has its new child block and its old leaves. */
  lemma StoredNode(h0: Heap, h: Heap, hb: Heap, ha: Heap, ab: nat, at: nat, q: Tree, i: nat, t: Tree, base1: u32)
    requires Stored1(h0, h, hb, ha, ab, at, q, i, t, base1)
    ensures var q' := Stepped(q, i, t, base1);
            NodeSeen(ha.N, ha.L, q'.nd, q'.slots) && NodeHeld(ha, q'.nd, q'.slots)
    ensures base1 != NONE && NB(base1) !in Blocks(h) && Blocks(ha) == Blocks(h) + {NB(base1)}
    ensures q.nd.base1 != NONE && NB(q.nd.base1) in Own(q.nd)
  {
    hide Rep, Lin, Grows, Shares, B, SlotB, KidNodes, Runs, StartsRun, Stored, Bit, Rank, Blocks, SlotBuilt, OneStore;
    var ts := q.slots[i := TKid(t)];
    RepSize(h0, q);
    KidNone(h0, q, i);
    KidNodesReplace(q.slots, i, TKid(t), 64);
    RunsReplace(q.slots, i, TKid(t), 64);
    var K := KidNodes(ts, 64);
    BuiltBlocks(h0, h, q.slots[i], TKid(t));
    KidsStored(h, hb, ha, ab, at, base1, K);
    if q.nd.base0 != NONE {
      OwnInB(q);
      assert LB(q.nd.base0) in Own(q.nd);
      LeafBlockInPlace(h0, ha, ab, at, q.nd.base0, Runs(q.slots, 64));
    } else {
      NoneStored(h0.L, ha.L, Runs(q.slots, 64));
    }
  }

  lemma KidsStored(h: Heap, hb: Heap, ha: Heap, ab: nat, at: nat, base: u32, K: seq<PNode>)
    requires PlacedNodes(h, hb, base, K) && K != [] && OneStore(hb, ha, ab, at) && Blocks(ha) == Blocks(hb)
    requires NB(ab) in Blocks(h)
    ensures base != NONE && NB(base) !in Blocks(h) && Blocks(ha) == Blocks(h) + {NB(base)}
    ensures Stored(ha.N, base, K) && base in ha.ln && Snug(|K|, ha.ln[base])
  {
    hide Grows;
    InBlocks(hb, NB(base));
    assert KeepsBlock(hb, ha, NB(base));
    NodesKept(hb, ha, base, K);
  }

  lemma StoredInPlace(h0: Heap, h: Heap, hb: Heap, ha: Heap, ab: nat, at: nat, q: Tree, i: nat, t: Tree, base1: u32)
    requires Stored1(h0, h, hb, ha, ab, at, q, i, t, base1)
    ensures InPlace(h0, ha, at, q, Stepped(q, i, t, base1), (SlotB(q.slots[i]) - B(t)) + {NB(q.nd.base1)})
  {
    hide Rep, Lin, Grows, Shares, B, SlotB, KidNodes, NodeSeen, NodeHeld, OneStore, Blocks, PlacedNodes, SlotBuilt, Own;
    StoredNode(h0, h, hb, ha, ab, at, q, i, t, base1);
    ReplaceDisjoint(h0, h, q, i, TKid(t));
    RepSize(h0, q);
    KidB(t);
    BuiltBlocks(h0, h, q.slots[i], TKid(t));
    SteppedB(q, i, t, base1, Blocks(h0), Blocks(h));
    StoredRep(h0, h, hb, ha, ab, at, q, i, t, base1);
  }

  lemma StoredRep(h0: Heap, h: Heap, hb: Heap, ha: Heap, ab: nat, at: nat, q: Tree, i: nat, t: Tree, base1: u32)
    requires Stored1(h0, h, hb, ha, ab, at, q, i, t, base1)
    ensures SlotRep(ha, TKid(Stepped(q, i, t, base1)))
  {
    hide Rep, Lin, Grows, Shares, B, SlotB, KidNodes, NodeSeen, NodeHeld, OneStore, Blocks, PlacedNodes, SlotBuilt,
         Own, Disjoint,
         SlotRep;
    StoredSlots(h0, h, hb, ha, ab, at, q, i, t, base1);
    StoredNode(h0, h, hb, ha, ab, at, q, i, t, base1);
    ReplaceDisjoint(h0, h, q, i, TKid(t));
    StandsLin(h0, q);
    KidB(t);
    BuiltBlocks(h0, h, q.slots[i], TKid(t));
    SteppedRep(ha, q, i, t, base1, Blocks(h0), Blocks(h));
  }

  lemma StandsLin(h: Heap, q: Tree)
    requires SlotRep(h, TKid(q))
    ensures Lin(q) && B(q) <= Blocks(h)
  {
    HeldBlocks(h, q);
  }

  lemma SteppedRep(ha: Heap, q: Tree, i: nat, t: Tree, base1: u32, S0: set<Blk>, S: set<Blk>)
    requires Lin(q) && |q.slots| == 64 && i < 64 && B(q) <= S0 <= S && NB(base1) !in S && base1 != NONE
    requires B(t) * S0 <= SlotB(q.slots[i])
    requires var q' := Stepped(q, i, t, base1);
      && NodeSeen(ha.N, ha.L, q'.nd, q'.slots) && NodeHeld(ha, q'.nd, q'.slots) && Disjoint(q'.slots)
      && forall j :: 0 <= j < 64 ==> SlotRep(ha, q'.slots[j]) && SlotB(q'.slots[j]) <= S
    ensures SlotRep(ha, TKid(Stepped(q, i, t, base1)))
  {
    hide Rep, Lin, B, SlotB, NodeSeen, NodeHeld, Own;
    var q' := Stepped(q, i, t, base1);
    RepFromSlots(ha, q');
    OwnStepped(q, i, t, base1, S0, S);
    LinIntro(q');
  }

  lemma KidB(t: Tree)
    ensures SlotB(TKid(t)) == B(t)
  {}

  lemma BuiltBlocks(h0: Heap, h: Heap, x: TSlot, s: TSlot)
    requires SlotBuilt(h0, h, x, s)
    ensures Blocks(h) == Blocks(h0) + SlotB(s)
  {}

  /** The node's own blocks after the store: the fresh child block and the old leaf block. */
  lemma OwnStepped(q: Tree, i: nat, t: Tree, base1: u32, S0: set<Blk>, S: set<Blk>)
    requires Lin(q) && |q.slots| == 64 && i < 64 && B(q) <= S0 <= S && NB(base1) !in S && base1 != NONE
    requires B(t) * S0 <= SlotB(q.slots[i])
    ensures var q' := Stepped(q, i, t, base1);
      && Own(q'.nd) == {NB(base1)} + (Own(q.nd) - {NB(q.nd.base1)})
      && forall j :: 0 <= j < 64 && SlotB(q'.slots[j]) <= S ==> Own(q'.nd) !! SlotB(q'.slots[j])
  {
    hide B, SlotB, Lin;
    var q' := Stepped(q, i, t, base1);
    OwnInB(q);
    KidB(t);
    forall j | 0 <= j < 64 && SlotB(q'.slots[j]) <= S ensures Own(q'.nd) !! SlotB(q'.slots[j]) {
      LinAll(q, i);
      LinAll(q, j);
    }
  }

  lemma SteppedB(q: Tree, i: nat, t: Tree, base1: u32, S0: set<Blk>, S: set<Blk>)
    requires Lin(q) && |q.slots| == 64 && i < 64 && B(q) <= S0 <= S && NB(base1) !in S && base1 != NONE
    requires S == S0 + B(t) && B(t) * S0 <= SlotB(q.slots[i])
    requires q.nd.base1 != NONE && NB(q.nd.base1) in Own(q.nd)
    ensures var q' := Stepped(q, i, t, base1);
      && S + {NB(base1)} == S0 + B(q') && B(q') * S0 <= B(q)
      && B(q) - B(q') == (SlotB(q.slots[i]) - B(t)) + {NB(q.nd.base1)}
  {
    hide B, SlotB, Lin;
    var q' := Stepped(q, i, t, base1);
    var r := Tree(q.nd, q.slots[i := TKid(t)]);
    KidB(t);
    ReplaceB(q, i, TKid(t), S0, SlotB(q.slots[i]) - B(t));
    OwnStepped(q, i, t, base1, S0, S);
    BParts(r);
    BParts(q');
    OwnInB(q);
    LinAll(q, i);
    RestB(r, S0, S, q, i);
  }

  /** The old child block is owned by no slot of the changed node. */
  lemma RestB(r: Tree, S0: set<Blk>, S: set<Blk>, q: Tree, i: nat)
    requires Lin(q) && |q.slots| == 64 == |r.slots| && i < 64 && r.nd == q.nd
    requires forall j :: 0 <= j < 64 && j != i ==> r.slots[j] == q.slots[j]
    requires SlotB(r.slots[i]) * S0 <= SlotB(q.slots[i]) && B(q) <= S0
    ensures Own(q.nd) !! SlotsB(r.slots, 64)
  {
    hide B, SlotB, Lin;
    OwnInB(q);
    forall b | b in SlotsB(r.slots, 64) ensures b !in Own(q.nd) {
      InSlotsB(r.slots, 64, b);
      var j :| 0 <= j < 64 && b in SlotB(r.slots[j]);
      LinAll(q, j);
      LinAll(q, i);
    }
  }

  lemma FrameIs(h: Heap, w: u32, stack: seq<Frame>, xs: seq<TSlot>, k: nat)
    requires Traced(h, w, stack, xs) && 1 <= k < |stack|
    ensures FrameAt(h, w, stack, xs, k)
  {}

  /** The block of a frame's node structure. */
  lemma FrameBase(h: Heap, w: u32, stack: seq<Frame>, xs: seq<TSlot>, k: nat)
    requires FrameAt(h, w, stack, xs, k)
    ensures var b := Base(w, xs, k - 1);
            && b in h.ln && b <= stack[k].inode < b + Pow2(h.ln[b]) && NB(b) !in B(xs[k - 1].t) && NB(b) in Blocks(h)
    ensures stack[k].inode == Spot(w, stack, xs, k - 1) && 0 <= stack[k].inode < |h.N|
    ensures h.N[stack[k].inode] == xs[k - 1].t.nd
    ensures SlotRep(h, xs[k - 1]) && xs[k - 1].TKid? && |xs[k - 1].t.slots| == 64
    ensures 0 <= stack[k].idx < 64 && xs[k - 1].t.slots[stack[k].idx] == xs[k]
  {
    InBlocks(h, NB(Base(w, xs, k - 1)));
  }

  /** The stored block belongs to the node structure itself or to the tree below it. */
  ghost predicate Within(w: u32, stack: seq<Frame>, xs: seq<TSlot>, j: nat, ab: nat, at: nat)
    requires j + 1 < |stack| == |xs|
  {
    xs[j].TKid? && ((ab == Base(w, xs, j) && at == stack[j + 1].inode) || NB(ab) in B(xs[j].t))
  }

  /** A structure outside the stored block is where it was. */
  lemma StructureKept(h: Heap, h': Heap, ab: nat, at: nat, b: nat, up: nat)
    requires OneStore(h, h', ab, at) && b != ab && b in h.ln && b <= up < b + Pow2(h.ln[b]) && up < |h.N|
    ensures up < |h'.N| && h'.N[up] == h.N[up]
  {
    InBlocks(h, NB(b));
    assert KeepsBlock(h, h', NB(b));
  }

  /** Seen from the root, the store has replaced one slot deep in the tree and nothing else. */
  lemma {:induction false} UpToRoot(h0: Heap, ha: Heap, ab: nat, at: nat, w: u32, stack: seq<Frame>, xs: seq<TSlot>,
                                    j: nat, q': Tree, D: set<Blk>) returns (e: Tree)
    requires Traced(h0, w, stack, xs) && j + 1 < |stack| && OneStore(h0, ha, ab, at)
    requires xs[j].TKid? && stack[j + 1].inode >= 0 && InPlace(h0, ha, stack[j + 1].inode, xs[j].t, q', D)
    requires Within(w, stack, xs, j, ab, at)
    ensures xs[0].TKid? && InPlace(h0, ha, w, xs[0].t, e, D) && (ab == w || NB(ab) in B(xs[0].t))
    ensures Kid(Strip(e)) == PatchUp(xs, stack, j, Kid(Strip(q')))
    decreases j
  {
    hide OneStore, InPlace, Strip, B, Rank, SlotRep, EntryAt, Blocks, FrameAt;
    var j1 := j + 1;
    FrameIs(h0, w, stack, xs, j1);
    FrameBase(h0, w, stack, xs, j1);
    if j == 0 {
      e := q';
    } else {
      FrameIs(h0, w, stack, xs, j);
      FrameBase(h0, w, stack, xs, j);
      var r, i := xs[j - 1].t, stack[j].idx;
      var r' := Tree(r.nd, r.slots[i := TKid(q')]);
      KidOwn(h0, r, i);
      SlotInB(r, i);
      OwnInB(r);
      StructureKept(h0, ha, ab, at, Base(w, xs, j - 1), stack[j].inode);
      StepUp(h0, ha, ab, at, stack[j1].inode, r, i, xs[j].t, q', D, stack[j].inode);
      PatchKid(xs, stack, j, q', r.nd);
      e := UpToRoot(h0, ha, ab, at, w, stack, xs, j - 1, r', D);
    }
  }

  lemma KidOwn(h: Heap, r: Tree, i: nat)
    requires SlotRep(h, TKid(r)) && i < 64 && |r.slots| == 64 && r.slots[i].TKid?
    ensures NB(r.nd.base1) in Own(r.nd) && SlotB(r.slots[i]) == B(r.slots[i].t)
  {
    RepSize(h, r);
    KidNone(h, r, i);
  }

  /** The clean pass after the store frees exactly what only the old node owned. */
  lemma StoredClean(h0: Heap, h: Heap, hb: Heap, ha: Heap, ab: nat, at: nat, q: Tree, i: nat, t: Tree, base1: u32)
    requires Stored1(h0, h, hb, ha, ab, at, q, i, t, base1)
    ensures var q' := Stepped(q, i, t, base1);
      && Replaces(ha, q'.slots, q.slots, Blocks(h0))
      && KidsSeen(ha, base1, q.nd.vector, q'.slots) && KidsSeen(ha, q.nd.base1, q.nd.vector, q.slots)
      && Gone(q'.slots, q.slots, 64) == SlotB(q.slots[i]) - B(t)
      && q.nd.base1 in ha.ln && NB(q.nd.base1) !in Gone(q'.slots, q.slots, 64) && base1 != q.nd.base1
        && q.nd.base1 != NONE
  {
    hide Lin, Grows, Shares, B, SlotB, KidNodes, Rank, NodeSeen, NodeHeld, OneStore, PlacedNodes, SlotBuilt, Own,
         Gone, KidsSeen,
         SlotRep, Batch, Blocks, Disjoint, Replaces;
    var q' := Stepped(q, i, t, base1);
    StoredRep(h0, h, hb, ha, ab, at, q, i, t, base1);
    StoredNode(h0, h, hb, ha, ab, at, q, i, t, base1);
    KidB(q);
    TreeKept(h0, ha, ab, at, TKid(q));
    SlotSeen(ha, q);
    SlotSeen(ha, q');
    NodeKidsSeen(ha, q);
    NodeKidsSeen(ha, q');
    StoredReplaces(h0, h, hb, ha, ab, at, q, i, t, base1);
    OneGone(q, i, t);
    SlotRepBlocks(h0, TKid(q));
    BuiltBlocks(h0, h, q.slots[i], TKid(t));
    OwnInB(q);
    InBlocks(ha, NB(q.nd.base1));
    LinAll(q, i);
  }

  lemma SlotSeen(h: Heap, q: Tree)
    requires SlotRep(h, TKid(q))
    ensures Seen(h.N, h.L, q) && Lin(q)
  {}

  lemma OneGone(q: Tree, i: nat, t: Tree)
    requires |q.slots| == 64 && i < 64
    ensures Gone(q.slots[i := TKid(t)], q.slots, 64) == SlotB(q.slots[i]) - B(t)
  {
    hide Gone, SlotB;
    var ns := q.slots[i := TKid(t)];
    KidB(t);
    forall b ensures b in Gone(ns, q.slots, 64) <==> b in SlotB(q.slots[i]) - B(t) {
      InGone(ns, q.slots, 64, b);
      if b in SlotB(q.slots[i]) - B(t) { assert b !in SlotB(ns[i]); }
    }
  }

  lemma StoredReplaces(h0: Heap, h: Heap, hb: Heap, ha: Heap, ab: nat, at: nat, q: Tree, i: nat, t: Tree, base1: u32)
    requires Stored1(h0, h, hb, ha, ab, at, q, i, t, base1)
    ensures Replaces(ha, Stepped(q, i, t, base1).slots, q.slots, Blocks(h0))
  {
    hide Rep, Lin, Grows, Shares, B, SlotB, KidNodes, NodeSeen, NodeHeld, OneStore, PlacedNodes, SlotBuilt, Own,
         Blocks, Disjoint;
    var ns := q.slots[i := TKid(t)];
    StoredSlots(h0, h, hb, ha, ab, at, q, i, t, base1);
    StoredNode(h0, h, hb, ha, ab, at, q, i, t, base1);
    BuiltBlocks(h0, h, q.slots[i], TKid(t));
    StandsLin(h0, q);
    LinDisjoint(q);
    forall j | 0 <= j < 64
      ensures SlotShares(ns[j], q.slots[j], Blocks(h0)) && SlotB(q.slots[j]) <= Blocks(h0)
      ensures q.slots[j].TKid? ==> Lin(q.slots[j].t)
    {
      assert SlotShares(ns[j], PastT(TKid(q), j), Blocks(h0));
      SlotInB(q, j);
      LinAll(q, j);
    }
  }

  lemma StoredMade(h0: Heap, h: Heap, hb: Heap, w: u32, stack: seq<Frame>, xs: seq<TSlot>, k: nat, t: Tree, base1: u32)
    requires HeapOK(hb) && Traced(h0, w, stack, xs) && 1 <= k < |stack| && xs[k].TKid?
    requires SlotBuilt(h0, h, xs[k], TKid(t)) && Grows(h, hb)
    requires xs[k - 1].TKid? && |xs[k - 1].t.slots| == 64 && 0 <= stack[k].idx < 64
    requires PlacedNodes(h, hb, base1, KidNodes(xs[k - 1].t.slots[stack[k].idx := TKid(t)], 64))
    ensures var q, at := xs[k - 1].t, stack[k].inode;
      && 0 <= at < |hb.N|
      && var ha := StoreNode(hb, at, q.nd.(base1 := base1));
         && Stored1(h0, h, hb, ha, Base(w, xs, k - 1), at, q, stack[k].idx, t, base1)
         && AtMostOneStore(hb, ha) && OneStore(h0, ha, Base(w, xs, k - 1), at)
  {
    hide EntryAt, SlotRep, Blocks, OneStore, Grows, KidNodes, B, HeapOK, PlacedNodes, AtMostOneStore, SlotBuilt;
    var q, at, ab := xs[k - 1].t, stack[k].inode, Base(w, xs, k - 1);
    FrameIs(h0, w, stack, xs, k);
    FrameBase(h0, w, stack, xs, k);
    BuiltGrows(h0, h, xs[k], TKid(t));
    GrowsTransitive(h0, h, hb);
    BaseKept(h0, hb, ab);
    StoreOne(hb, ab, at, q.nd.(base1 := base1));
    OneStoreLater(h0, hb, StoreNode(hb, at, q.nd.(base1 := base1)), ab, at);
  }

  lemma BaseKept(h0: Heap, h: Heap, ab: nat)
    requires Grows(h0, h) && ab in h0.ln
    ensures ab in h.ln && h.ln[ab] == h0.ln[ab]
  {
    InBlocks(h0, NB(ab));
    assert KeepsBlock(h0, h, NB(ab));
  }

  /** The entry after the store in place. */
  lemma StoredSwitch(h0: Heap, hb: Heap, ha: Heap, h: Heap, w: u32, o: Tree, e: Tree, ab: nat, at: nat, D: set<Blk>)
    requires EntryAt(h0, w, TKid(o)) && OneStore(h0, ha, ab, at) && InPlace(h0, ha, w, o, e, D)
    requires ab == w || NB(ab) in B(o)
    requires Grows(h0, hb) && AtMostOneStore(hb, ha) && Drops(ha, h, D)
    ensures Switched(h0, hb, ha, h, w, TKid(o), w, TKid(e))
  {
    hide Rep, Lin, B, Grows, AtMostOneStore, Drops;
    InBlocks(h0, NB(w));
    if ab != w { assert KeepsBlock(h0, ha, NB(w)); }
    InBlocks(ha, NB(w));
    DropsBlocks(ha, h, D);
    var S := Blocks(h0) - EntryB(w, TKid(o));
    KeepsLess(h0, ha, Blocks(h0) - {NB(ab)}, S);
    KeepsLess(ha, h, Blocks(ha) - D, S);
    KeepsTransitive(h0, ha, h, S);
    assert EntryB(w, TKid(o)) - EntryB(w, TKid(e)) == D;
    assert Blocks(ha) == Blocks(h0) + EntryB(w, TKid(e));
  }

  /** The same vector: fill a new child block, point the node at it in place, and clean. */
  method StoreChild(p: Poptrie, stack: seq<Frame>, k: nat, child: PNode, ghost h0: Heap, ghost w: u32,
          ghost xs: seq<TSlot>,
                    ghost t: Tree, ghost want: Slot)
    returns (ok: bool, ghost e: TSlot, ghost hb: Heap, ghost ha: Heap, ghost sw: nat)
    requires p.Mem() && Traced(h0, w, stack, xs) && 1 <= k < |stack|
    requires Climbing(h0, p.H(), stack, xs, k, TKid(t), want) && child == t.nd && xs[k].TKid?
    modifies p.Foot(), p`trace
    ensures p.Mem()
    ensures !ok ==> Grows(h0, p.H()) && p.Fails() > old(p.Fails())
    ensures ok ==> p.Fails() == old(p.Fails()) && StripSlot(e) == want && Switched(h0, hb, ha, p.H(), w, xs[0], w, e)
    ensures !ok ==> Quiet(old(p.trace), p.trace, Blocks(old(p.H())), 1)
    ensures ok ==> Handed(old(p.trace), p.trace, sw, hb, ha, p.dir[..], EntryB(w, xs[0]) - EntryB(w, e), 1)
  {
    hide Poptrie.Mem, Poptrie.Fails, Poptrie.Foot, Grows, Anchored, SlotBuilt, Traced, VectorOK, VecBt, B, SlotB,
         Drops, Gone, Replaces, KidsSeen, Quiet, Handed, EntryB,
         Bit, Rank, Runs, KidNodes, Strip, StripSlot, Blocks, PatchUp, Climbing, SlotRep, PlacedNodes, Stored1,
         OneStore, InPlace, HeapOK,
         Switched, AtMostOneStore, EntryAt, FrameAt;
    p.FootHeld();
    p.MemTrace();
    ghost var h, tr := p.H(), p.trace;
    ClimbingParts(h0, h, stack, xs, k, TKid(t), want);
    e, hb, ha, sw := xs[0], h, h, 0;
    FrameFacts(h0, h, w, stack, xs, k);
    ghost var q := xs[k - 1].t;
    var idx := stack[k].idx;
    var node := p.nodes[stack[k].inode];
    SetVector(node.vector, q.slots, idx, t);
    var items := CopyKids(p, node, node.vector, idx, child, stack[k].inode, q, TKid(t));
    var base1;
    ok, base1 := PlaceNodes(p, items);
    if !ok { return; }
    hb := p.H();
    ghost var tb := p.trace;
    p.MemTrace();
    p.MemHeap();
    PlacedNodesGrow(h, hb, base1, items);
    GrowsTransitive(h0, h, hb);
    StoredMade(h0, h, hb, w, stack, xs, k, t, base1);
    FrameFacts(h0, hb, w, stack, xs, k);
    var oroot := node.base1;
    p.StoreBase1(stack[k].inode, base1);
    ha := p.H();
    ghost var ab := Base(w, xs, k - 1);
    StoredInPlace(h0, h, hb, ha, ab, stack[k].inode, q, idx, t, base1);
    StoredClean(h0, h, hb, ha, ab, stack[k].inode, q, idx, t, base1);
    ghost var q' := Stepped(q, idx, t, base1);
    ghost var D := (SlotB(q.slots[idx]) - B(t)) + {NB(q.nd.base1)};
    e := UpTo(h0, ha, w, stack, xs, k, q', D, want, t);
    CleanNode(p, p.nodes[stack[k].inode], oroot, q'.slots, q, Blocks(h0));
    StoredSwitch(h0, hb, ha, p.H(), w, xs[0].t, e.t, ab, stack[k].inode, D);
    SwitchDrops(h0, ha, w, xs[0].t, e.t, ab, stack[k].inode, D);
    sw := |tb|;
    p.MemTrace();
    HandOver(tr, tb, Last(tb).(h := ha), p.trace, D, 1);
  }

  lemma SwitchDrops(h0: Heap, ha: Heap, w: u32, o: Tree, e: Tree, ab: nat, at: nat, D: set<Blk>)
    requires EntryAt(h0, w, TKid(o)) && OneStore(h0, ha, ab, at) && InPlace(h0, ha, w, o, e, D)
    requires ab == w || NB(ab) in B(o)
    ensures EntryB(w, TKid(o)) - EntryB(w, TKid(e)) == D
  {
    hide Rep, Lin, B, OneStore;
    InBlocks(h0, NB(w));
  }

  lemma UpTo(h0: Heap, ha: Heap, w: u32, stack: seq<Frame>, xs: seq<TSlot>, k: nat, q': Tree, D: set<Blk>, want: Slot,
          t: Tree)
    returns (e: TSlot)
    requires Traced(h0, w, stack, xs) && 1 <= k < |stack| && stack[k].inode >= 0
    requires xs[k - 1].TKid? && |xs[k - 1].t.slots| == 64 && 0 <= stack[k].idx < 64
    requires OneStore(h0, ha, Base(w, xs, k - 1), stack[k].inode) && InPlace(h0, ha, stack[k].inode, xs[k - 1].t, q', D)
    requires q'.slots == xs[k - 1].t.slots[stack[k].idx := TKid(t)] && PatchUp(xs, stack, k, StripSlot(TKid(t))) == want
    ensures e.TKid? && xs[0].TKid? && StripSlot(e) == want && InPlace(h0, ha, w, xs[0].t, e.t, D)
    ensures EntryAt(h0, w, xs[0])
    ensures var ab := Base(w, xs, k - 1); ab == w || NB(ab) in B(xs[0].t)
  {
    hide Strip, StripSlot, B, InPlace, OneStore, EntryAt, FrameAt, PatchUp;
    var j := k - 1;
    StripKid(t);
    PatchKid(xs, stack, k, t, q'.nd);
    var r := UpToRoot(h0, ha, Base(w, xs, j), stack[k].inode, w, stack, xs, j, q', D);
    StripKid(r);
    e := TKid(r);
  }

  // ----- _update_part

  /** The slot at the bottom of the path is stored at inode; a leaf has no place of its own. */
  ghost predicate BottomAt(h: Heap, w: u32, stack: seq<Frame>, xs: seq<TSlot>, inode: int)
    requires |xs| == |stack| >= 1
  {
    var x := xs[|xs| - 1];
    (x.TKid? ==> Stands(h, w, stack, xs, |xs| - 1, inode)) && (x.TLeaf? ==> inode == -1)
  }

  lemma BottomAnchored(h: Heap, w: u32, stack: seq<Frame>, xs: seq<TSlot>, inode: int)
    requires |xs| == |stack| >= 1 && BottomAt(h, w, stack, xs, inode)
    ensures Anchored(h, inode, xs[|xs| - 1])
  {
    var k := |xs| - 1;
    if xs[k].TKid? { StandsAnchored(h, w, stack, xs, k, inode); } else { LeafAnchored(h, xs[k]); }
  }

  /** The local state of the update at frame k: still one next hop (vcomp), or a node structure. */
  ghost predicate Carried(vcomp: bool, sleaf: u16, cnodes: PNode, s: TSlot) {
    if vcomp then s == TLeaf(sleaf) else s.TKid? && cnodes == s.t.nd
  }

  lemma StartClimb(h0: Heap, h: Heap, stack: seq<Frame>, xs: seq<TSlot>, s: TSlot, n: Slot)
    requires |xs| == |stack| >= 1
    requires SlotBuilt(h0, h, xs[|xs| - 1], s) && StripSlot(s) == n
    ensures Climbing(h0, h, stack, xs, |xs| - 1, s, PatchUp(xs, stack, |xs| - 1, n))
  {}

  lemma UnchangedSwitch(h0: Heap, h: Heap, w: u32, o: TSlot)
    requires EntryAt(h0, w, o) && Grows(h0, h) && Blocks(h) == Blocks(h0)
    ensures Switched(h0, h, h, h, w, o, w, o)
  {
    hide EntryAt, Drops, EntryB, AtMostOneStore;
    EntryBlocks(h0, w, o);
    EntryGrows(h0, h, w, o);
    OneSelf(h);
    DropsNone(h);
    assert EntryB(w, o) - EntryB(w, o) == {};
    KeepsLess(h0, h, Blocks(h0), Blocks(h0) - EntryB(w, o));
  }

  lemma ClimbedTop(h0: Heap, h: Heap, stack: seq<Frame>, xs: seq<TSlot>, t: Tree, want: Slot)
    requires |xs| > 0 && Climbing(h0, h, stack, xs, 0, TKid(t), want)
    ensures SlotBuilt(h0, h, xs[0], TKid(t)) && StripSlot(TKid(t)) == want
  {}

  /** Build the changed block; a single next hop gives its leaf block back. */
  method BuildBottom(p: Poptrie, v: RView, inode: int, stack: seq<Frame>, ghost xs: seq<TSlot>,
                     ghost sl: Shape, ghost sr: Shape, ghost dep: nat, ghost c: Cur, ghost W: set<object>)
    returns (ret: int, cnodes: PNode, sleaf: u16, ghost s: TSlot)
    requires p.Mem() && |xs| == |stack| >= 1 && Anchored(p.H(), inode, xs[|xs| - 1])
    requires W !! p.Foot() && p !in W && Sees(v, sl, sr, dep, c, W)
    modifies p.Foot(), p`trace
    ensures p.Mem()
    ensures ret < 0 ==> Grows(old(p.H()), p.H()) && p.Fails() > old(p.Fails())
    ensures ret >= 0 ==>
      && p.Fails() == old(p.Fails()) && Carried(ret > 0, sleaf, cnodes, s)
      && StripSlot(s) == Compress(Rebuild(StripSlot(xs[|xs| - 1]), c))
      && Climbing(old(p.H()), p.H(), stack, xs, |xs| - 1, s,
                  PatchUp(xs, stack, |xs| - 1, Compress(Rebuild(StripSlot(xs[|xs| - 1]), c))))
    ensures Quiet(old(p.trace), p.trace, Blocks(old(p.H())), Need(c))
  {
    hide Poptrie.Mem, Poptrie.Fails, Poptrie.Foot, Grows, Anchored, SlotBuilt, Strip, StripSlot, Blocks, PatchUp,
         Climbing, Quiet, Need,
         Rebuild, Degenerate, Sees;
    ghost var h0, t0 := p.H(), p.trace;
    ghost var x := xs[|xs| - 1];
    ghost var t;
    ret, cnodes, sleaf, t := UpdateInode(p, v, inode, x, sl, sr, dep, c, W);
    s := TKid(t);
    if ret < 0 { return; }
    StripKid(t);
    if ret > 0 {
      ghost var h, th := p.H(), p.trace;
      SingleLeaf(h0, h, x, t, sleaf);
      p.FreeLeaves(cnodes.base0);
      BuildOn(t0, th, p.trace, Blocks(h0), Blocks(h) - {LB(cnodes.base0)}, Need(c), 0);
      s := TLeaf(sleaf);
      StripLeaf(sleaf);
    }
    StartClimb(h0, p.H(), stack, xs, s, Compress(Rebuild(StripSlot(x), c)));
  }

  /** The loop of vertical compression. */
  method CompressUp(p: Poptrie, stack: seq<Frame>, sleaf: u16, ghost h0: Heap, ghost w: u32, ghost xs: seq<TSlot>,
          ghost want: Slot)
    returns (r: Step, k: nat, cnodes: PNode, ghost s: TSlot)
    requires p.Mem() && Traced(h0, w, stack, xs) && |xs| == |stack| > 1
    requires Climbing(h0, p.H(), stack, xs, |xs| - 1, TLeaf(sleaf), want)
    modifies p.Foot(), p`trace
    ensures p.Mem() && !r.Compressed?
    ensures r.Failed? ==> Grows(h0, p.H()) && p.Fails() > old(p.Fails())
    ensures !r.Failed? ==> p.Fails() == old(p.Fails())
    ensures r.Unchanged? ==> Grows(h0, p.H()) && Blocks(p.H()) == Blocks(h0)
                             && (Missed(xs, stack, |xs| - 1, Leaf(sleaf)) || want == StripSlot(xs[0]))
    ensures r.Rebuilt? ==>
        !Missed(xs, stack, |xs| - 1, Leaf(sleaf)) && s.TKid? && cnodes == s.t.nd
          && Climbing(h0, p.H(), stack, xs, k, s, want)
    ensures k < |stack| && Quiet(old(p.trace), p.trace, Blocks(old(p.H())), 2)
  {
    hide Poptrie.Mem, Poptrie.Fails, Poptrie.Foot, Grows, Anchored, SlotBuilt, Traced, StripSlot, Blocks, PatchUp,
         Climbing, VectorOK, Missed, Quiet;
    p.FootHeld();
    p.MemTrace();
    ghost var h, t := p.H(), p.trace;
    QuietSelf(t, Blocks(h));
    QuietLess(t, t, Blocks(h), 0, Blocks(h), 2);
    ghost var bottom := |stack| - 1;
    k := |stack| - 1;
    FrameIdx(h0, w, stack, xs, k);
    r, cnodes, s := Compressed, PNode(0, 0, NONE, NONE), TLeaf(sleaf);
    while r.Compressed? && stack[k].idx >= 0
      invariant 0 <= k < |stack| && p.Mem() && p.Fails() == old(p.Fails())
      invariant r.Compressed? || r.Rebuilt?
      invariant r.Compressed? ==> k >= 1 && stack[k].idx >= 0 && s == TLeaf(sleaf) && (k < bottom ==> xs[k].TKid?)
      invariant k < bottom ==> !Missed(xs, stack, bottom, Leaf(sleaf))
      invariant r.Rebuilt? ==> s.TKid? && cnodes == s.t.nd && k < bottom
      invariant Climbing(h0, p.H(), stack, xs, k, s, want)
      invariant Quiet(t, p.trace, Blocks(h), 2) && (r.Compressed? ==> p.trace == t && p.H() == h)
      decreases k
    {
      ghost var u;
      r, cnodes, u := CompressFrame(p, stack, k, sleaf, h0, w, xs, want);
      if k < bottom { KidNotMissed(xs, stack, k, Leaf(sleaf)); }
      if r.Failed? || r.Unchanged? { return; }
      if r.Rebuilt? { s := u; }
      k := k - 1;
      if r.Compressed? { FrameIdx(h0, w, stack, xs, k); }
    }
  }

  lemma KidNotMissed(xs: seq<TSlot>, stack: seq<Frame>, k: nat, n: Slot)
    requires k < |xs| && (xs[k].TKid? || n.Kid?)
    ensures !Missed(xs, stack, k, n)
  {}

  lemma FrameIdx(h: Heap, w: u32, stack: seq<Frame>, xs: seq<TSlot>, k: nat)
    requires Traced(h, w, stack, xs) && 1 <= k < |stack|
    ensures 0 <= stack[k].idx < 64
  {
    FrameIs(h, w, stack, xs, k);
  }

  /** Whether the node of frame k has a child in the slot through which the path goes. */
  method BitIsSet(p: Poptrie, stack: seq<Frame>, k: nat, ghost h0: Heap, ghost w: u32, ghost xs: seq<TSlot>)
    returns (isSet: bool)
    requires Traced(h0, w, stack, xs) && 1 <= k < |stack| && Grows(h0, p.H())
    ensures isSet <==> xs[k].TKid?
  {
    hide Poptrie.Foot, Grows, Anchored, Traced, VecBt, VectorOK;
    TracedSize(h0, w, stack, xs);
    FrameFacts(h0, p.H(), w, stack, xs, k);
    var node := p.nodes[stack[k].inode];
    SlotBit(node.vector, xs[k - 1].t.slots, stack[k].idx);
    isSet := VecBt(node.vector, stack[k].idx);
  }

  /** The loop that goes up with a changed node, and the exchange of the root. */
  method ClimbUp(p: Poptrie, stack: seq<Frame>, k0: nat, nd: PNode, d: array<u32>, i: nat,
                 ghost h0: Heap, ghost xs: seq<TSlot>, ghost t0: Tree, ghost want: Slot)
    returns (ok: bool, ghost e: TSlot, ghost hb: Heap, ghost ha: Heap, ghost sw: nat)
    requires p.Mem() && i < d.Length && |xs| == |stack| > k0 && Traced(h0, d[i], stack, xs)
    requires Climbing(h0, p.H(), stack, xs, k0, TKid(t0), want) && nd == t0.nd
    requires d !in p.Foot() && p !in p.Foot() && d == p.dir
    modifies p.Foot(), d, p`root, p`trace
    ensures p.Mem()
    ensures !ok ==> Grows(h0, p.H()) && p.Fails() > old(p.Fails()) && d[..] == old(d[..])
    ensures ok ==>
      && p.Fails() == old(p.Fails()) && d[..] == old(d[..])[i := d[i]] && StripSlot(e) == want
      && Switched(h0, hb, ha, p.H(), old(d[i]), xs[0], d[i], e)
    ensures !ok ==> Quiet(old(p.trace), p.trace, Blocks(old(p.H())), 2 * k0 + 1)
    ensures ok ==> Handed(old(p.trace), p.trace, sw, hb, ha, d[..], EntryB(old(d[i]), xs[0]) - EntryB(d[i], e),
                          2 * k0 + 1)
  {
    hide Poptrie.Mem, Poptrie.Fails, Poptrie.Foot, Grows, Anchored, SlotBuilt, Traced, Strip, StripSlot, Blocks,
         PatchUp, Climbing, Quiet, Handed,
         Switched, EntryAt, VecBt, Renewed, Drops, EntryB, VectorOK;
    p.FootHeld();
    p.MemTrace();
    ghost var h, tr := p.H(), p.trace;
    ghost var w := d[i];
    ghost var t := t0;
    var k, cnodes := k0, nd;
    e, hb, ha, sw := xs[0], h0, h0, 0;
    QuietSelf(tr, Blocks(h));
    TracedSize(h0, w, stack, xs);
    while stack[k].idx >= 0
      invariant 0 <= k < |stack| && p.Mem() && p.Fails() == old(p.Fails())
      invariant Climbing(h0, p.H(), stack, xs, k, TKid(t), want) && cnodes == t.nd
      invariant k <= k0 && Quiet(tr, p.trace, Blocks(h), 2 * (k0 - k))
      modifies p.Foot(), p`trace
      decreases k
    {
      ClimbingParts(h0, p.H(), stack, xs, k, TKid(t), want);
      FrameIdx(h0, w, stack, xs, k);
      var isSet := BitIsSet(p, stack, k, h0, w, xs);
      p.MemTrace();
      ghost var h1, t1 := p.H(), p.trace;
      if isSet {
        ok, e, hb, ha, sw := StoreChild(p, stack, k, cnodes, h0, w, xs, t, want);
        Climbed(tr, t1, p.trace, sw, hb, ha, p.dir[..], EntryB(w, xs[0]) - EntryB(w, e), 2 * (k0 - k), 1, 2 * k0 + 1,
                ok);
        return;
      }
      ok, cnodes, t := GrowFrame(p, stack, k, cnodes, h0, w, xs, t, want);
      BuildTwice(tr, t1, p.trace, 2 * (k0 - k), 2);
      if !ok {
        QuietLess(tr, p.trace, Blocks(h), 2 * (k0 - k) + 2, Blocks(h), 2 * k0 + 1);
        return;
      }
      k := k - 1;
    }
    TopReached(h0, w, stack, xs, k);
    p.MemTrace();
    ghost var t1 := p.trace;
    ok, e, hb, sw := InstallTop(p, stack, cnodes, d, i, h0, xs, t, want);
    ha := hb;
    Climbed(tr, t1, p.trace, sw, hb, ha, d[..], EntryB(w, xs[0]) - EntryB(d[i], e), 2 * (k0 - k), 1, 2 * k0 + 1, ok);
  }

  /** Building first and then switching, or failing to. */
  lemma Climbed(t0: seq<Moment>, t1: seq<Moment>, t2: seq<Moment>, sw: nat, hb: Heap, ha: Heap, ds: seq<u32>,
                F: set<Blk>, n: nat, n': nat, m: nat, ok: bool)
    requires |t0| > 0 && |t1| > 0 && Quiet(t0, t1, Blocks(Last(t0).h), n) && n + n' <= m
    requires if ok then Handed(t1, t2, sw, hb, ha, ds, F, n') else Quiet(t1, t2, Blocks(Last(t1).h), n')
    ensures if ok then Handed(t0, t2, sw, hb, ha, ds, F, m) else Quiet(t0, t2, Blocks(Last(t0).h), m)
  {
    hide Quiet, Handed, Blocks, Grows;
    QuietGrows(t0, t1, n);
    if ok {
      BuildThenHand(t0, t1, t2, sw, hb, ha, ds, F, n, n');
      HandLess(t0, t2, sw, hb, ha, ds, F, n + n', m);
    } else {
      BuildTwice(t0, t1, t2, n, n');
      QuietLess(t0, t2, Blocks(Last(t0).h), n + n', Blocks(Last(t0).h), m);
    }
  }

  /** The root itself has changed: exchange it. */
  method InstallTop(p: Poptrie, ghost stack: seq<Frame>, nd: PNode, d: array<u32>, i: nat,
                    ghost h0: Heap, ghost xs: seq<TSlot>, ghost t: Tree, ghost want: Slot)
    returns (ok: bool, ghost e: TSlot, ghost hb: Heap, ghost sw: nat)
    requires p.Mem() && i < d.Length && |xs| > 0 && EntryAt(h0, d[i], xs[0])
    requires Climbing(h0, p.H(), stack, xs, 0, TKid(t), want) && nd == t.nd
    requires d !in p.Foot() && p !in p.Foot() && d == p.dir
    modifies p.Foot(), d, p`root, p`trace
    ensures p.Mem()
    ensures !ok ==> Grows(h0, p.H()) && p.Fails() > old(p.Fails()) && d[..] == old(d[..])
    ensures ok ==>
      && p.Fails() == old(p.Fails()) && d[..] == old(d[..])[i := d[i]] && StripSlot(e) == want
      && Switched(h0, hb, hb, p.H(), old(d[i]), xs[0], d[i], e)
    ensures !ok ==> Quiet(old(p.trace), p.trace, Blocks(old(p.H())), 1)
    ensures ok ==> Handed(old(p.trace), p.trace, sw, hb, hb, d[..], EntryB(old(d[i]), xs[0]) - EntryB(d[i], e), 1)
  {
    hide Poptrie.Mem, Poptrie.Fails, Poptrie.Foot, Grows, SlotBuilt, StripSlot, Blocks, Climbing, Quiet, Handed,
         Switched, EntryAt, Renewed, Drops, EntryB;
    ghost var w := d[i];
    ClimbedTop(h0, p.H(), stack, xs, t, want);
    e := TKid(t);
    ok, hb, sw := InstallRoot(p, nd, d, i, false, h0, xs[0], t);
    if ok {
      EntryBlocks(h0, w, xs[0]);
      RenewedSwitch(h0, hb, p.H(), w, xs[0], d[i], e);
    }
  }

  /** _update_part below the root of an entry. */
  method PartBelow(p: Poptrie, v: RView, inode: int, stack: seq<Frame>, d: array<u32>, i: nat, ghost xs: seq<TSlot>,
                   ghost sl: Shape, ghost sr: Shape, ghost dep: nat, ghost c: Cur, ghost W: set<object>)
    returns (ok: bool, ghost e: TSlot, ghost hb: Heap, ghost ha: Heap, ghost sw: nat)
    requires p.Mem() && i < d.Length && |xs| == |stack| > 1 && Traced(p.H(), d[i], stack, xs)
    requires Anchored(p.H(), inode, xs[|xs| - 1])
    requires d !in p.Foot() && p !in p.Foot() && d == p.dir
    requires W !! p.Foot() && p !in W && Sees(v, sl, sr, dep, c, W)
    modifies p.Foot(), d, p`root, p`trace
    ensures p.Mem()
    ensures !ok ==> Grows(old(p.H()), p.H()) && p.Fails() > old(p.Fails()) && d[..] == old(d[..])
    ensures ok ==>
      && p.Fails() == old(p.Fails()) && d[..] == old(d[..])[i := d[i]]
      && (var n := Compress(Rebuild(StripSlot(xs[|xs| - 1]), c));
          StripSlot(e) == if Missed(xs, stack, |xs| - 1, n) then StripSlot(xs[0]) else PatchUp(xs, stack, |xs| - 1, n))
      && Switched(old(p.H()), hb, ha, p.H(), old(d[i]), xs[0], d[i], e)
    ensures !ok ==> Quiet(old(p.trace), p.trace, Blocks(old(p.H())), Need(c) + 2 * |stack| + 3)
    ensures ok ==> Handed(old(p.trace), p.trace, sw, hb, ha, d[..], EntryB(old(d[i]), xs[0]) - EntryB(d[i], e),
                          Need(c) + 2 * |stack| + 3)
  {
    hide Poptrie.Mem, Poptrie.Fails, Poptrie.Foot, Grows, Anchored, SlotBuilt, Traced, StripSlot, Blocks, PatchUp,
         Climbing, Compress, Missed, Quiet, Handed, Need, EntryB,
         Switched, EntryAt, Rebuild, Degenerate, Sees;
    p.FootHeld();
    p.MemTrace();
    ghost var h0, t0 := p.H(), p.trace;
    ghost var w := d[i];
    ghost var m := Need(c) + 2 * |stack| + 3;
    sw := 0;
    ghost var want := PatchUp(xs, stack, |xs| - 1, Compress(Rebuild(StripSlot(xs[|xs| - 1]), c)));
    e, hb, ha := xs[0], h0, h0;
    TracedSize(h0, w, stack, xs);
    var ret, cnodes, sleaf;
    ghost var s;
    ret, cnodes, sleaf, s := BuildBottom(p, v, inode, stack, xs, sl, sr, dep, c, W);
    ok := ret >= 0;
    if ret < 0 {
      QuietLess(t0, p.trace, Blocks(h0), Need(c), Blocks(h0), m);
      return;
    }
    p.MemTrace();
    ghost var t1 := p.trace;
    var k := |stack| - 1;
    QuietLess(t0, t1, Blocks(h0), Need(c), Blocks(h0), Need(c) + 2);
    if ret > 0 {
      StripLeaf(sleaf);
      var r;
      r, k, cnodes, s := CompressUp(p, stack, sleaf, h0, w, xs, want);
      BuildTwice(t0, t1, p.trace, Need(c), 2);
      if r.Failed? {
        QuietLess(t0, p.trace, Blocks(h0), Need(c) + 2, Blocks(h0), m);
        return false, e, hb, ha, 0;
      }
      if r.Unchanged? {
        UnchangedSwitch(h0, p.H(), w, xs[0]);
        p.MemTrace();
        HandNothing(t0, p.trace, EntryB(w, xs[0]) - EntryB(w, xs[0]), Need(c) + 2);
        HandLess(t0, p.trace, |p.trace|, p.H(), p.H(), d[..], EntryB(w, xs[0]) - EntryB(w, xs[0]), Need(c) + 2, m);
        return true, xs[0], p.H(), p.H(), |p.trace|;
      }
      ClimbingParts(h0, p.H(), stack, xs, k, s, want);
    } else {
      StripKid(s.t);
      KidNotMissed(xs, stack, |xs| - 1, Compress(Rebuild(StripSlot(xs[|xs| - 1]), c)));
    }
    p.MemTrace();
    ghost var t2 := p.trace;
    ok, e, hb, ha, sw := ClimbUp(p, stack, k, cnodes, d, i, h0, xs, s.t, want);
    Climbed(t0, t2, p.trace, sw, hb, ha, d[..], EntryB(w, xs[0]) - EntryB(d[i], e), Need(c) + 2, 2 * k + 1, m, ok);
  }

  lemma TopReached(h: Heap, w: u32, stack: seq<Frame>, xs: seq<TSlot>, k: nat)
    requires Traced(h, w, stack, xs) && k < |stack| && stack[k].idx < 0
    ensures k == 0
  {
    if k > 0 { FrameIs(h, w, stack, xs, k); }
  }

  /** _update_part: at the root of an entry, or below it with a stack of path nodes.  The
      alternative array is only ever updated at the root. */
  method UpdatePart(p: Poptrie, v: RView, inode: int, stack: seq<Frame>, d: array<u32>, i: nat, alt: bool,
          ghost xs: seq<TSlot>,
                    ghost sl: Shape, ghost sr: Shape, ghost dep: nat, ghost c: Cur, ghost W: set<object>)
    returns (ok: bool, ghost e: TSlot, ghost hb: Heap, ghost ha: Heap, ghost sw: nat)
    requires p.Mem() && i < d.Length && |xs| == |stack| >= 1 && Traced(p.H(), d[i], stack, xs)
    requires BottomAt(p.H(), d[i], stack, xs, inode) && (alt ==> |stack| == 1)
    requires d !in p.Foot() && p !in p.Foot() && d == (if alt then p.altdir else p.dir)
    requires W !! p.Foot() && p !in W && Sees(v, sl, sr, dep, c, W)
    modifies p.Foot(), d, p`root, p`trace
    ensures p.Mem()
    ensures !ok ==> Grows(old(p.H()), p.H()) && p.Fails() > old(p.Fails()) && d[..] == old(d[..])
    ensures ok ==>
      && p.Fails() == old(p.Fails()) && d[..] == old(d[..])[i := d[i]]
      && (var n := Compress(Rebuild(StripSlot(xs[|xs| - 1]), c));
          StripSlot(e) == if Missed(xs, stack, |xs| - 1, n) then StripSlot(xs[0]) else PatchUp(xs, stack, |xs| - 1, n))
      && (!alt ==> Switched(old(p.H()), hb, ha, p.H(), old(d[i]), xs[0], d[i], e))
      && (alt ==> Renewed(old(p.H()), hb, old(d[i]), xs[0], d[i], e) && Drops(hb, p.H(), {}))
    ensures !ok || alt ==> Quiet(old(p.trace), p.trace, Blocks(old(p.H())), Need(c) + 2 * |stack| + 3)
    ensures ok && !alt ==>
      Handed(old(p.trace), p.trace, sw, hb, ha, d[..], EntryB(old(d[i]), xs[0]) - EntryB(d[i], e),
             Need(c) + 2 * |stack| + 3)
  {
    hide Poptrie.Mem, Poptrie.Fails, Poptrie.Foot, Grows, Anchored, SlotBuilt, Traced, Strip, StripSlot, Blocks,
         Switched, EntryAt, Rebuild, Degenerate, Sees, Renewed, Drops, EntryB, BottomAt, Quiet, Handed, Need;
    p.FootHeld();
    ghost var h0 := p.H();
    ghost var w := d[i];
    TracedSize(h0, w, stack, xs);
    if stack[|stack| - 1].idx < 0 {
      TopReached(h0, w, stack, xs, |stack| - 1);
      RootAt(h0, w, stack, xs, inode);
      ok, e, hb, sw := PartRoot(p, v, inode, d, i, alt, xs[0], sl, sr, dep, c, W);
      ha := hb;
      if !ok || alt {
        QuietLess(old(p.trace), p.trace, Blocks(h0), Need(c) + 1, Blocks(h0), Need(c) + 2 * |stack| + 3);
      } else {
        HandLess(old(p.trace), p.trace, sw, hb, ha, d[..], EntryB(w, xs[0]) - EntryB(d[i], e), Need(c) + 1,
                 Need(c) + 2 * |stack| + 3);
      }
      if ok && !alt {
        EntryBlocks(h0, w, xs[0]);
        RenewedSwitch(h0, hb, p.H(), w, xs[0], d[i], e);
      }
    } else {
      BottomAnchored(h0, w, stack, xs, inode);
      ok, e, hb, ha, sw := PartBelow(p, v, inode, stack, d, i, xs, sl, sr, dep, c, W);
    }
  }

  lemma RootAt(h: Heap, w: u32, stack: seq<Frame>, xs: seq<TSlot>, inode: int)
    requires |xs| == |stack| == 1 && BottomAt(h, w, stack, xs, inode)
    ensures inode == if xs[0].TKid? then w as int else -1
  {}
}
