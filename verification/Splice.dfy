/** Replacing one slot deep inside a stored tree: a rebuilt node on the way up, or a store into
    one node structure in place. */
module Splice {
  import opened Bits
  import opened BuddyModel
  import opened Rib
  import opened Trie
  import opened Store
  import opened Sharing
  import opened PoptrieState
  import opened Build

  // ----- rebuilding the node around a replaced slot

  lemma LinDisjoint(o: Tree)
    requires Lin(o)
    ensures Disjoint(o.slots)
  {}

  /** With slot i replaced by s, the slots of o are a batch for a new node in the place of o. */
  lemma BatchReplace(h0: Heap, h: Heap, o: Tree, i: nat, s: TSlot)
    requires SlotRep(h0, TKid(o)) && i < 64
    requires |o.slots| == 64 && SlotBuilt(h0, h, o.slots[i], s)
    ensures Batch(h0, h, TKid(o), o.slots[i := s])
  {
    hide Rep, Lin, Grows, Shares;
    var ts := o.slots[i := s];
    LinDisjoint(o);
    RepSize(h0, o);
    forall j | 0 <= j < 64 ensures SlotRep(h, ts[j]) && SlotShares(ts[j], PastT(TKid(o), j), Blocks(h0)) {
      if j != i { OtherSlotKept(h0, h, o, j); }
    }
    ReplaceDisjoint(h0, h, o, i, s);
    ReplaceBlocks(h0, h, o, i, s);
  }

  lemma KidLin(o: Tree, j: nat)
    requires Lin(o) && j < |o.slots|
    ensures o.slots[j].TKid? ==> Lin(o.slots[j].t)
  {}

  lemma OtherSlotKept(h0: Heap, h: Heap, o: Tree, j: nat)
    requires SlotRep(h0, TKid(o)) && Grows(h0, h) && j < 64
    ensures |o.slots| == 64 && SlotRep(h, o.slots[j]) && SlotShares(o.slots[j], o.slots[j], Blocks(h0))
    ensures SlotB(o.slots[j]) <= Blocks(h0)
  {
    hide Rep, Lin, Grows, Shares;
    RepSize(h0, o);
    KidLin(o, j);
    SlotRepGrows(h0, h, o.slots[j]);
    if o.slots[j].TKid? { RepSize(h0, o.slots[j].t); }
    SharesSelf(o.slots[j], Blocks(h0));
    SlotInB(o, j);
  }

  lemma ReplaceDisjoint(h0: Heap, h: Heap, o: Tree, i: nat, s: TSlot)
    requires SlotRep(h0, TKid(o)) && i < 64
    requires |o.slots| == 64 && SlotBuilt(h0, h, o.slots[i], s)
    ensures Disjoint(o.slots[i := s])
    ensures SlotB(s) * Blocks(h0) <= SlotB(o.slots[i]) <= Blocks(h0)
  {
    hide Rep, Lin, Grows, Shares;
    var ts := o.slots[i := s];
    LinDisjoint(o);
    OtherSlotKept(h0, h, o, i);
    SharesB(s, o.slots[i], Blocks(h0));
    forall j, k | 0 <= j < k < 64 ensures SlotB(ts[j]) !! SlotB(ts[k]) {
      OtherSlotKept(h0, h, o, j);
      OtherSlotKept(h0, h, o, k);
      assert SlotB(o.slots[j]) !! SlotB(o.slots[k]);
    }
  }

  lemma ReplaceBlocks(h0: Heap, h: Heap, o: Tree, i: nat, s: TSlot)
    requires SlotRep(h0, TKid(o)) && i < 64
    requires |o.slots| == 64 && SlotBuilt(h0, h, o.slots[i], s)
    ensures Blocks(h) == Blocks(h0) + SlotsB(o.slots[i := s], 64)
  {
    hide Rep, Lin, Grows, Shares, SlotB, SlotsB;
    var ts := o.slots[i := s];
    forall b ensures b in Blocks(h) <==> b in Blocks(h0) + SlotsB(ts, 64) {
      InSlotsB(ts, 64, b);
      if b in SlotsB(ts, 64) {
        var j :| 0 <= j < 64 && b in SlotB(ts[j]);
        OtherSlotKept(h0, h, o, j);
      }
      if b in SlotB(s) { assert b in SlotB(ts[i]); }
    }
  }

  // ----- storing into a node in place

  /** Of the blocks of h, only ab changes, and of ab only the node structure at `at`. */
  ghost predicate OneStore(h: Heap, h': Heap, ab: nat, at: nat) {
    && Keeps(h, h', Blocks(h) - {NB(ab)})
    && ab in h.ln && ab <= at < ab + Pow2(h.ln[ab]) && ab in h'.ln && h'.ln[ab] == h.ln[ab]
    && forall x :: ab <= x < ab + Pow2(h.ln[ab]) && x < |h.N| && x < |h'.N| && x != at ==> h'.N[x] == h.N[x]
  }

  /** Memory h' has o' in the place of o, with its root structure at pos; D are the blocks that o
      owns and o' does not. */
  ghost predicate InPlace(h: Heap, h': Heap, pos: nat, o: Tree, o': Tree, D: set<Blk>) {
    && pos < |h'.N| && h'.N[pos] == o'.nd
    && SlotRep(h', TKid(o'))
    && Blocks(h') == Blocks(h) + B(o') && B(o') * Blocks(h) <= B(o) <= Blocks(h) && B(o) - B(o') == D
  }

  lemma {:induction false} KidNodesReplace(slots: seq<TSlot>, i: nat, s: TSlot, n: nat)
    requires i < |slots| && n <= |slots| && slots[i].TKid? && s.TKid?
    ensures i < n ==> |KidNodes(slots, i)| < |KidNodes(slots, n)|
    ensures KidNodes(slots[i := s], n) ==
            if i < n then KidNodes(slots, n)[|KidNodes(slots, i)| := s.t.nd] else KidNodes(slots, n)
  {
    if n > 0 { KidNodesReplace(slots, i, s, n - 1); }
  }

  lemma {:induction false} RunsReplace(slots: seq<TSlot>, i: nat, s: TSlot, n: nat)
    requires i < |slots| && n <= |slots| && slots[i].TKid? && s.TKid?
    ensures Runs(slots[i := s], n) == Runs(slots, n)
    ensures forall j :: 0 <= j < n ==> StartsRun(slots[i := s], j) == StartsRun(slots, j)
  {
    if n > 0 { RunsReplace(slots, i, s, n - 1); }
  }

  /** A node keeps its blocks when the structure of one child is replaced where it stands. */
  lemma NodeInPlace(h: Heap, h': Heap, ab: nat, at: nat, nd: PNode, slots: seq<TSlot>, i: nat, s: TSlot)
    requires OneStore(h, h', ab, at) && i < 64
    requires NodeSeen(h.N, h.L, nd, slots) && NodeHeld(h, nd, slots) && Own(nd) <= Blocks(h)
    requires slots[i].TKid? && s.TKid?
    requires var pos := nd.base1 + Rank(nd.vector, i + 1) - 1;
             0 <= pos < |h'.N| && h'.N[pos] == s.t.nd && (ab == nd.base1 ==> at == pos)
    ensures NodeSeen(h'.N, h'.L, nd, slots[i := s]) && NodeHeld(h', nd, slots[i := s])
  {
    hide Rank, Bit, Pow2, Blocks, OneStore, Stored, KidNodes, Runs, StartsRun;
    var slots' := slots[i := s];
    KidNodesReplace(slots, i, s, 64);
    RunsReplace(slots, i, s, 64);
    KidRank(h, nd, slots, i);
    var K, k := KidNodes(slots, 64), |KidNodes(slots, i)|;
    assert NB(nd.base1) in Own(nd);
    KidBlockInPlace(h, h', ab, at, nd.base1, K, k);
    if nd.base0 != NONE {
      assert LB(nd.base0) in Own(nd);
      LeafBlockInPlace(h, h', ab, at, nd.base0, Runs(slots, 64));
    } else {
      NoneStored(h.L, h'.L, Runs(slots, 64));
    }
  }

  lemma NoneStored<X>(M: seq<X>, M': seq<X>, items: seq<X>)
    requires Stored(M, NONE, items)
    ensures Stored(M', NONE, items)
  {}

  lemma KidRank(h: Heap, nd: PNode, slots: seq<TSlot>, i: nat)
    requires NodeSeen(h.N, h.L, nd, slots) && NodeHeld(h, nd, slots) && i < 64 && slots[i].TKid?
    ensures Rank(nd.vector, i + 1) == |KidNodes(slots, i)| + 1 && nd.base1 != NONE && nd.base1 in h.ln
    ensures |KidNodes(slots, 64)| <= Pow2(h.ln[nd.base1])
  {
    RankIsKids(nd.vector, slots, i + 1);
    KidAt(h.N, h.L, nd, slots, i);
  }

  lemma KidBlockInPlace(h: Heap, h': Heap, ab: nat, at: nat, base: nat, K: seq<PNode>, k: nat)
    requires OneStore(h, h', ab, at) && base < NONE && NB(base) in Blocks(h) && base in h.ln && |K| <= Pow2(h.ln[base])
    requires Stored(h.N, base, K) && k < |K| && base + k < |h'.N|
    requires ab == base ==> at == base + k
    ensures base in h'.ln && h'.ln[base] == h.ln[base] && Stored(h'.N, base, K[k := h'.N[base + k]])
  {
    hide Blocks;
    if ab != base { assert KeepsBlock(h, h', NB(base)); }
    var K' := K[k := h'.N[base + k]];
    var M, M' := h.N[base..base + |K|], h'.N[base..base + |K|];
    forall j | 0 <= j < |K| ensures M'[j] == K'[j] {
      assert h.N[base + j] == M[j] == K[j];
    }
    assert M' == K';
  }

  lemma LeafBlockInPlace(h: Heap, h': Heap, ab: nat, at: nat, base: nat, R: seq<u16>)
    requires OneStore(h, h', ab, at) && base < NONE && LB(base) in Blocks(h) && base in h.ll && |R| <= Pow2(h.ll[base])
    requires Stored(h.L, base, R)
    ensures base in h'.ll && h'.ll[base] == h.ll[base] && Stored(h'.L, base, R)
  {
    hide Blocks;
    assert KeepsBlock(h, h', LB(base));
    if R != [] { LeavesKept(h, h', base, R); }
  }

  /** A tree whose blocks do not include the stored one is kept. */
  lemma TreeKept(h: Heap, h': Heap, ab: nat, at: nat, s: TSlot)
    requires OneStore(h, h', ab, at) && SlotRep(h, s) && NB(ab) !in SlotB(s)
    ensures SlotRep(h', s)
  {
    SlotRepBlocks(h, s);
    if s.TKid? { RepKept(h, h', Blocks(h) - {NB(ab)}, s.t); }
  }

  lemma LinAll(o: Tree, i: nat)
    requires Lin(o) && i < |o.slots|
    ensures Own(o.nd) !! SlotB(o.slots[i])
    ensures forall j :: 0 <= j < |o.slots| && j != i ==> SlotB(o.slots[i]) !! SlotB(o.slots[j])
    ensures o.slots[i].TKid? ==> Lin(o.slots[i].t)
  {
    forall j | 0 <= j < |o.slots| && j != i ensures SlotB(o.slots[i]) !! SlotB(o.slots[j]) {
      if i < j { assert SlotB(o.slots[i]) !! SlotB(o.slots[j]); }
        else { assert SlotB(o.slots[j]) !! SlotB(o.slots[i]); }
    }
  }

  lemma LinIntro(o: Tree)
    requires forall i, j :: 0 <= i < j < |o.slots| ==> SlotB(o.slots[i]) !! SlotB(o.slots[j])
    requires forall i :: 0 <= i < |o.slots| ==> Own(o.nd) !! SlotB(o.slots[i])
    requires forall i :: 0 <= i < |o.slots| && o.slots[i].TKid? ==> Lin(o.slots[i].t)
    ensures Lin(o)
  {}

  /** The blocks of a tree after slot i became s. */
  lemma ReplaceB(o: Tree, i: nat, s: TSlot, S: set<Blk>, D: set<Blk>)
    requires Lin(o) && |o.slots| == 64 && i < 64 && B(o) <= S
    requires SlotB(s) * S <= SlotB(o.slots[i]) && SlotB(o.slots[i]) - SlotB(s) == D
    ensures var o' := Tree(o.nd, o.slots[i := s]);
            && S + B(o') == S + SlotB(s) && B(o') * S <= B(o) && B(o) - B(o') == D
            && Own(o.nd) !! SlotB(s)
            && (forall j :: 0 <= j < 64 && j != i ==> SlotB(s) !! SlotB(o.slots[j]))
  {
    hide B, SlotB, Lin, Own;
    var o' := Tree(o.nd, o.slots[i := s]);
    LinAll(o, i);
    SlotInB(o, i);
    SlotInB(o', i);
    BParts(o);
    BParts(o');
    forall j | 0 <= j < 64 && j != i ensures SlotB(s) !! SlotB(o.slots[j]) { SlotInB(o, j); }
    forall b | b in B(o') ensures b in SlotB(s) || (b in B(o) && b !in SlotB(o.slots[i])) {
      InSlotsB(o'.slots, 64, b);
      if b !in Own(o.nd) {
        var j :| 0 <= j < 64 && b in SlotB(o'.slots[j]);
        if j != i { SlotInB(o, j); }
      }
    }
    forall b | b in B(o) && b !in SlotB(o.slots[i]) ensures b in B(o') {
      InSlotsB(o.slots, 64, b);
      if b !in Own(o.nd) {
        var j :| 0 <= j < 64 && b in SlotB(o.slots[j]);
        SlotInB(o', j);
      }
    }
  }

  lemma BParts(o: Tree)
    ensures B(o) == Own(o.nd) + SlotsB(o.slots, |o.slots|)
  {}

  /** The store is seen from the parent: one of its children has been replaced in place. */
  lemma StepUp(h: Heap, h': Heap, ab: nat, at: nat, pos: nat, r: Tree, i: nat, o: Tree, o': Tree, D: set<Blk>, up: nat)
    requires SlotRep(h, TKid(r)) && i < 64 && |r.slots| == 64 && r.slots[i] == TKid(o)
    requires OneStore(h, h', ab, at) && InPlace(h, h', pos, o, o', D)
    requires pos == r.nd.base1 + Rank(r.nd.vector, i + 1) - 1
    requires (ab == r.nd.base1 && at == pos) || NB(ab) in B(o)
    requires up < |h'.N| && h'.N[up] == r.nd
    ensures var r' := Tree(r.nd, r.slots[i := TKid(o')]);
            InPlace(h, h', up, r, r', D) && NB(ab) in B(r)
  {
    hide Rank, OneStore, NodeSeen, NodeHeld, Rep, Lin, B;
    var s := TKid(o');
    var slots' := r.slots[i := s];
    var r' := Tree(r.nd, slots');
    RepSize(h, r);
    RepParts(h, r, i);
    LinAll(r, i);
    SlotInB(r, i);
    OwnInB(r);
    ReplaceB(r, i, s, Blocks(h), D);
    KidNone(h, r, i);
    NodeInPlace(h, h', ab, at, r.nd, r.slots, i, s);
    forall j | 0 <= j < 64 ensures SlotRep(h', slots'[j]) {
      if j != i {
        RepParts(h, r, j);
        LinAll(r, j);
        TreeKept(h, h', ab, at, r.slots[j]);
      }
    }
    RepFromSlots(h', r');
    forall j, k | 0 <= j < k < 64 ensures SlotB(slots'[j]) !! SlotB(slots'[k]) { LinAll(r, j); }
    forall j | 0 <= j < 64 ensures Own(r.nd) !! SlotB(slots'[j]) { LinAll(r, j); }
    LinIntro(r');
  }

  lemma KidNone(h: Heap, r: Tree, i: nat)
    requires NodeSeen(h.N, h.L, r.nd, r.slots) && i < 64 && r.slots[i].TKid?
    ensures r.nd.base1 != NONE && NB(r.nd.base1) in Own(r.nd)
  {
    KidAt(h.N, h.L, r.nd, r.slots, i);
  }

  lemma OwnInB(r: Tree)
    ensures Own(r.nd) <= B(r)
  {}

  lemma RepParts(h: Heap, r: Tree, i: nat)
    requires SlotRep(h, TKid(r)) && i < 64
    ensures |r.slots| == 64 && SlotRep(h, r.slots[i]) && Own(r.nd) <= Blocks(h)
  {
    RepSize(h, r);
    LinAll(r, i);
    OwnInB(r);
  }

  lemma RepFromSlots(h: Heap, r: Tree)
    requires |r.slots| == 64 && NodeSeen(h.N, h.L, r.nd, r.slots) && NodeHeld(h, r.nd, r.slots)
    requires forall j :: 0 <= j < 64 ==> SlotRep(h, r.slots[j])
    ensures Rep(h, r)
  {}
}
