/** How a newly built tree shares blocks with the tree it replaces: slot by slot, either a whole
    child block of the old node or only fresh blocks. */
module Sharing {
  import opened Bits
  import opened BuddyModel
  import opened Rib
  import opened Trie
  import opened Store

  function PastT(o: TSlot, i: nat): TSlot {
    if o.TKid? && i < |o.t.slots| then o.t.slots[i] else o
  }

  ghost predicate KidsSame(n: Tree, o: Tree) {
    && n.nd.base1 == o.nd.base1 && n.nd.vector == o.nd.vector && |n.slots| == |o.slots|
    && forall i :: 0 <= i < |n.slots| && (n.slots[i].TKid? || o.slots[i].TKid?) ==> n.slots[i] == o.slots[i]
  }

  /** S are the blocks that were allocated before n was built to replace o. */
  ghost predicate Shares(n: Tree, o: Tree, S: set<Blk>)
    decreases n, 0
  {
    && |n.slots| == 64 && |o.slots| == 64
    && (KidsSame(n, o)
        || ((n.nd.base1 == NONE || NB(n.nd.base1) !in S)
            && forall i :: 0 <= i < 64 ==> SlotShares(n.slots[i], o.slots[i], S)))
    && (n.nd.base0 == o.nd.base0 || n.nd.base0 == NONE || LB(n.nd.base0) !in S)
  }

  ghost predicate SlotShares(s: TSlot, o: TSlot, S: set<Blk>)
    decreases s, 1
  {
    s.TKid? ==> if o.TKid? then Shares(s.t, o.t, S) else B(s.t) !! S
  }

  lemma SharesSelf(s: TSlot, S: set<Blk>)
    requires s.TKid? ==> |s.t.slots| == 64
    ensures SlotShares(s, s, S)
  {}

  lemma {:induction false} SharesLess(s: TSlot, o: TSlot, S: set<Blk>, S': set<Blk>)
    requires SlotShares(s, o, S) && S' <= S
    ensures SlotShares(s, o, S')
    decreases s
  {
    if s.TKid? && o.TKid? && !KidsSame(s.t, o.t) {
      forall i | 0 <= i < 64 ensures SlotShares(s.t.slots[i], o.t.slots[i], S') {
        SharesLess(s.t.slots[i], o.t.slots[i], S, S');
      }
    }
  }

  /** What the new tree takes from the old blocks it takes from the tree it replaces. */
  lemma {:induction false} SharesB(s: TSlot, o: TSlot, S: set<Blk>)
    requires SlotShares(s, o, S) && SlotB(o) <= S
    ensures SlotB(s) * S <= SlotB(o)
    decreases s
  {
    if s.TKid? && o.TKid? {
      var n, p := s.t, o.t;
      forall b | b in B(n) && b in S ensures b in B(p) {
        if b in SlotsB(n.slots, 64) {
          InSlotsB(n.slots, 64, b);
          var i :| 0 <= i < 64 && b in SlotB(n.slots[i]);
          SlotInB(p, i);
          if KidsSame(n, p) {
            assert n.slots[i] == p.slots[i];
          } else {
            SharesB(n.slots[i], p.slots[i], S);
          }
        }
      }
    }
  }

  // ----- building a node slot by slot

  ghost predicate SlotRep(h: Heap, s: TSlot) {
    s.TKid? ==> Rep(h, s.t) && Lin(s.t)
  }

  /** h1 is h0 with the blocks of s added; s replaces o. */
  ghost predicate SlotBuilt(h0: Heap, h1: Heap, o: TSlot, s: TSlot) {
    && Grows(h0, h1)
    && Blocks(h1) == Blocks(h0) + SlotB(s)
    && SlotRep(h1, s)
    && SlotShares(s, o, Blocks(h0))
  }

  ghost predicate Disjoint(ts: seq<TSlot>) {
    forall j, k :: 0 <= j < k < |ts| ==> SlotB(ts[j]) !! SlotB(ts[k])
  }

  /** The first |ts| slots of the node that replaces o have been built. */
  ghost predicate Batch(h0: Heap, h: Heap, o: TSlot, ts: seq<TSlot>) {
    && Grows(h0, h)
    && Blocks(h) == Blocks(h0) + SlotsB(ts, |ts|)
    && Disjoint(ts)
    && forall j :: 0 <= j < |ts| ==> SlotRep(h, ts[j]) && SlotShares(ts[j], PastT(o, j), Blocks(h0))
  }

  lemma RepSize(h: Heap, t: Tree)
    requires Rep(h, t)
    ensures |t.slots| == 64 && B(t) <= Blocks(h)
    ensures forall i :: 0 <= i < 64 && t.slots[i].TKid? ==> Rep(h, t.slots[i].t)
    ensures NodeSeen(h.N, h.L, t.nd, t.slots) && NodeHeld(h, t.nd, t.slots)
  {
    HeldBlocks(h, t);
  }

  lemma PastDisjoint(h: Heap, o: TSlot, i: nat, j: nat)
    requires SlotRep(h, o) && i < j < 64
    ensures SlotB(PastT(o, i)) <= Blocks(h) && SlotB(PastT(o, j)) <= Blocks(h)
    ensures SlotB(PastT(o, i)) !! SlotB(PastT(o, j))
    ensures SlotB(o) <= Blocks(h)
  {
    if o.TKid? {
      RepSize(h, o.t);
      SlotInB(o.t, i);
      SlotInB(o.t, j);
    }
  }

  lemma {:induction false} SlotsBExtend(ts: seq<TSlot>, s: TSlot, n: nat)
    requires n <= |ts|
    ensures SlotsB(ts + [s], n) == SlotsB(ts, n)
  {
    if n > 0 { SlotsBExtend(ts, s, n - 1); }
  }

  lemma SlotsBPush(ts: seq<TSlot>, s: TSlot)
    ensures SlotsB(ts + [s], |ts| + 1) == SlotsB(ts, |ts|) + SlotB(s)
  {
    SlotsBExtend(ts, s, |ts|);
  }

  lemma SlotRepGrows(h: Heap, h': Heap, s: TSlot)
    requires SlotRep(h, s) && Grows(h, h')
    ensures SlotRep(h', s)
  {
    if s.TKid? { RepGrows(h, h', s.t); }
  }

  lemma SlotRepBlocks(h: Heap, s: TSlot)
    requires SlotRep(h, s)
    ensures SlotB(s) <= Blocks(h)
  {
    if s.TKid? { HeldBlocks(h, s.t); }
  }

  /** The next slot joins the batch. */
  lemma BatchStep(h0: Heap, h: Heap, h': Heap, o: TSlot, ts: seq<TSlot>, s: TSlot)
    requires Batch(h0, h, o, ts) && |ts| < 64 && SlotRep(h0, o)
    requires SlotBuilt(h, h', PastT(o, |ts|), s)
    ensures Batch(h0, h', o, ts + [s])
  {
    hide Shares, Rep, Lin, Grows;
    var us := ts + [s];
    GrowsTransitive(h0, h, h');
    SlotsBPush(ts, s);
    PastIn(h0, o, |ts|);
    SharesB(s, PastT(o, |ts|), Blocks(h));
    SharesLess(s, PastT(o, |ts|), Blocks(h), Blocks(h0));
    forall j | 0 <= j < |us| ensures SlotRep(h', us[j]) && SlotShares(us[j], PastT(o, j), Blocks(h0)) {
      if j < |ts| { SlotRepGrows(h, h', ts[j]); }
    }
    forall j | 0 <= j < |ts| ensures SlotB(ts[j]) !! SlotB(s) {
      BatchDisjoint(h0, h, o, ts, s, j);
    }
  }

  lemma PastIn(h: Heap, o: TSlot, i: nat)
    requires SlotRep(h, o) && i < 64
    ensures SlotB(PastT(o, i)) <= Blocks(h)
  {
    if i == 0 { PastDisjoint(h, o, i, 1); } else { PastDisjoint(h, o, 0, i); }
  }

  lemma BatchDisjoint(h0: Heap, h: Heap, o: TSlot, ts: seq<TSlot>, s: TSlot, j: nat)
    requires Batch(h0, h, o, ts) && j < |ts| < 64 && SlotRep(h0, o)
    requires SlotB(s) * Blocks(h) <= SlotB(PastT(o, |ts|))
    ensures SlotB(ts[j]) !! SlotB(s)
  {
    hide Shares, Rep, Lin, Grows;
    PastDisjoint(h0, o, j, |ts|);
    SlotRepBlocks(h, ts[j]);
    SharesB(ts[j], PastT(o, j), Blocks(h0));
  }

  /** The finished node: its own two blocks are fresh. */
  lemma BatchDone(h0: Heap, h: Heap, h': Heap, o: TSlot, ts: seq<TSlot>, nd: PNode)
    requires Batch(h0, h, o, ts) && |ts| == 64 && SlotRep(h0, o)
    requires Grows(h, h') && Blocks(h') == Blocks(h) + Own(nd) && Own(nd) !! Blocks(h)
    requires NodeSeen(h'.N, h'.L, nd, ts) && NodeHeld(h', nd, ts)
    ensures SlotBuilt(h0, h', o, TKid(Tree(nd, ts))) && Own(nd) !! Blocks(h0)
  {
    hide NodeSeen, NodeHeld, Grows, Rep;
    var t := Tree(nd, ts);
    GrowsTransitive(h0, h, h');
    BatchLin(h0, h, h', o, ts, nd);
    assert B(t) == Own(nd) + SlotsB(ts, 64);
    assert Blocks(h0) <= Blocks(h);
    if o.TKid? {
      RepSize(h0, o.t);
      BatchShares(h0, h, o, ts, nd);
    } else {
      forall b | b in B(t) ensures b !in Blocks(h0) {
        if b in SlotsB(ts, 64) {
          InSlotsB(ts, 64, b);
          var i :| 0 <= i < 64 && b in SlotB(ts[i]);
          SharesB(ts[i], PastT(o, i), Blocks(h0));
        }
      }
    }
  }

  lemma BatchShares(h0: Heap, h: Heap, o: TSlot, ts: seq<TSlot>, nd: PNode)
    requires Batch(h0, h, o, ts) && |ts| == 64 && o.TKid? && |o.t.slots| == 64
    requires Own(nd) !! Blocks(h0)
    ensures Shares(Tree(nd, ts), o.t, Blocks(h0))
  {
    hide SlotShares, SlotRep, Blocks, Grows;
    assert nd.base1 != NONE ==> NB(nd.base1) in Own(nd);
    assert nd.base0 != NONE ==> LB(nd.base0) in Own(nd);
    assert forall i :: 0 <= i < 64 ==> SlotShares(ts[i], PastT(o, i), Blocks(h0));
  }

  lemma BatchLin(h0: Heap, h: Heap, h': Heap, o: TSlot, ts: seq<TSlot>, nd: PNode)
    requires Batch(h0, h, o, ts) && |ts| == 64
    requires Grows(h, h') && Own(nd) !! Blocks(h)
    requires NodeSeen(h'.N, h'.L, nd, ts) && NodeHeld(h', nd, ts)
    ensures SlotRep(h', TKid(Tree(nd, ts)))
  {
    hide NodeSeen, NodeHeld, Grows, Shares;
    forall i | 0 <= i < 64 ensures SlotRep(h', ts[i]) && SlotB(ts[i]) <= Blocks(h) {
      SlotRepGrows(h, h', ts[i]);
      SlotRepBlocks(h, ts[i]);
    }
  }
}
