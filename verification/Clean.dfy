/** Freeing what the replaced tree owned and the new tree does not: _update_clean_inode,
    _update_clean_root, _update_clean_node and _update_clean_subtree. */
module Clean {
  import opened Bits
  import opened BuddyModel
  import opened Rib
  import opened Trie
  import opened Store
  import opened Sharing
  import opened Trace
  import opened PoptrieState

  /** h' is h after freeing the blocks F. */
  ghost predicate Drops(h: Heap, h': Heap, F: set<Blk>) {
    && h'.N == h.N && h'.L == h.L
    && h'.ln == h.ln - (set a | a in h.ln && NB(a) in F)
    && h'.ll == h.ll - (set a | a in h.ll && LB(a) in F)
  }

  lemma DropsNone(h: Heap)
    ensures Drops(h, h, {})
  {}

  lemma DropsTwice(h0: Heap, h1: Heap, h2: Heap, F: set<Blk>, G: set<Blk>)
    requires Drops(h0, h1, F) && Drops(h1, h2, G)
    ensures Drops(h0, h2, F + G)
  {}

  /** Freeing F and then G leaves all other blocks alone at every moment. */
  lemma CleanOn(t0: seq<Moment>, t1: seq<Moment>, t2: seq<Moment>, h: Heap, h1: Heap, F: set<Blk>, G: set<Blk>)
    requires Quiet(t0, t1, Blocks(h) - F, 0) && Drops(h, h1, F) && Quiet(t1, t2, Blocks(h1) - G, 0)
    ensures Quiet(t0, t2, Blocks(h) - (F + G), 0)
  {
    hide Quiet, Blocks, Drops;
    DropsBlocks(h, h1, F);
    QuietLess(t0, t1, Blocks(h) - F, 0, Blocks(h) - (F + G), 0);
    QuietLess(t1, t2, Blocks(h1) - G, 0, Blocks(h) - (F + G), 0);
    QuietThen(t0, t1, t2, Blocks(h) - (F + G), 0, 0);
  }

  lemma CleanNothing(p: Poptrie)
    requires p.Mem()
    ensures |p.trace| > 0 && Drops(p.H(), p.H(), {}) && Quiet(p.trace, p.trace, Blocks(p.H()) - {}, 0)
  {
    QuietSelf(p.trace, Blocks(p.H()) - {});
  }

  lemma DropsBlocks(h: Heap, h': Heap, F: set<Blk>)
    requires Drops(h, h', F)
    ensures Blocks(h') == Blocks(h) - F && Keeps(h, h', Blocks(h) - F)
  {
    forall b ensures b in Blocks(h') <==> b in Blocks(h) - F {
      InBlocks(h, b);
      InBlocks(h', b);
    }
    forall b | b in Blocks(h) - F ensures KeepsBlock(h, h', b) { InBlocks(h, b); }
  }

  lemma DropsNode(h: Heap, a: nat)
    ensures Drops(h, h.(ln := h.ln - {a}), {NB(a)})
  {
    assert h.ll - (set x | x in h.ll && LB(x) in {NB(a)}) == h.ll;
    assert h.ln - (set x | x in h.ln && NB(x) in {NB(a)}) == h.ln - {a};
  }

  lemma DropsLeaf(h: Heap, a: nat)
    ensures Drops(h, h.(ll := h.ll - {a}), {LB(a)})
  {
    assert h.ln - (set x | x in h.ln && NB(x) in {LB(a)}) == h.ln;
    assert h.ll - (set x | x in h.ll && LB(x) in {LB(a)}) == h.ll - {a};
  }

  /** What the first n old slots own and their replacements do not. */
  function Gone(ns: seq<TSlot>, os: seq<TSlot>, n: nat): set<Blk>
    requires n <= |ns| && n <= |os|
  {
    if n == 0 then {} else Gone(ns, os, n - 1) + (SlotB(os[n - 1]) - SlotB(ns[n - 1]))
  }

  lemma {:induction false} InGone(ns: seq<TSlot>, os: seq<TSlot>, n: nat, b: Blk)
    requires n <= |ns| && n <= |os|
    ensures b in Gone(ns, os, n) <==> exists i :: 0 <= i < n && b in SlotB(os[i]) && b !in SlotB(ns[i])
  {
    if n > 0 { InGone(ns, os, n - 1, b); }
  }

  /** The arena shows the children of the slots at `base` plus the vector rank. */
  ghost predicate KidsSeen(h: Heap, base: int, vector: u64, slots: seq<TSlot>) {
    && VectorOK(vector, slots)
    && forall i :: 0 <= i < 64 && slots[i].TKid? ==>
         && 0 <= base + Rank(vector, i) < |h.N| && h.N[base + Rank(vector, i)] == slots[i].t.nd
         && Seen(h.N, h.L, slots[i].t)
  }

  lemma NodeKidsSeen(h: Heap, t: Tree)
    requires Seen(h.N, h.L, t)
    ensures KidsSeen(h, t.nd.base1, t.nd.vector, t.slots)
  {
    hide Stored, LeafvecOK, KidNodes, Runs;
    forall i | 0 <= i < 64 && t.slots[i].TKid?
      ensures var k := Rank(t.nd.vector, i); t.nd.base1 + k < |h.N| && h.N[t.nd.base1 + k] == t.slots[i].t.nd
    {
      KidAt(h.N, h.L, t.nd, t.slots, i);
    }
  }

  /** The old slots os are being replaced by ns; S were the blocks before ns was built. */
  ghost predicate Replaces(h: Heap, ns: seq<TSlot>, os: seq<TSlot>, S: set<Blk>) {
    && |ns| == 64 && |os| == 64 && Disjoint(os)
    && (forall i :: 0 <= i < 64 ==> SlotShares(ns[i], os[i], S) && SlotB(os[i]) <= S)
    && (forall i :: 0 <= i < 64 && os[i].TKid? ==> Lin(os[i].t))
    && (forall i :: 0 <= i < 64 ==> SlotB(os[i]) - SlotB(ns[i]) <= Blocks(h))
  }

  /** The place of a node structure, or -1 for none. */
  ghost predicate NodeAt(h: Heap, inode: int, s: TSlot) {
    && (s.TKid? ==> 0 <= inode < |h.N| && h.N[inode] == s.t.nd && Seen(h.N, h.L, s.t))
    && (s.TLeaf? ==> inode < 0)
  }

  /** Identical node structures have the same children. */
  lemma SameNodeKids(h: Heap, n: Tree, o: Tree, S: set<Blk>)
    requires n.nd == o.nd && Shares(n, o, S) && B(o) <= S
    requires Seen(h.N, h.L, n) && Seen(h.N, h.L, o)
    ensures KidsSame(n, o)
  {
    hide Seen, Shares, KidsSame, B, KidNodes, Runs, LeafvecOK;
    SameNodeBase(n, o, S);
    SeenNode(h, n);
    SeenNode(h, o);
    if o.nd.base1 == NONE {
      NoKids(n.slots, 64);
      NoKids(o.slots, 64);
      NoKidsSame(n, o);
    }
  }

  lemma SameNodeBase(n: Tree, o: Tree, S: set<Blk>)
    requires n.nd == o.nd && Shares(n, o, S) && B(o) <= S
    ensures KidsSame(n, o) || o.nd.base1 == NONE
  {
    hide SlotsB;
    assert o.nd.base1 != NONE ==> NB(o.nd.base1) in Own(o.nd);
  }

  lemma SeenNode(h: Heap, t: Tree)
    requires Seen(h.N, h.L, t)
    ensures |t.slots| == 64 && Stored(h.N, t.nd.base1, KidNodes(t.slots, 64))
  {}

  lemma NoKidsSame(n: Tree, o: Tree)
    requires n.nd == o.nd && |n.slots| == |o.slots|
    requires forall i :: 0 <= i < |n.slots| ==> n.slots[i].TLeaf? && o.slots[i].TLeaf?
    ensures KidsSame(n, o)
  {}

  lemma SameNode(h: Heap, n: Tree, o: Tree, S: set<Blk>)
    requires n.nd == o.nd && Shares(n, o, S) && B(o) <= S
    requires Seen(h.N, h.L, n) && Seen(h.N, h.L, o)
    ensures B(n) == B(o)
  {
    SameNodeKids(h, n, o, S);
    SeenSize(h.N, h.L, n);
    SeenSize(h.N, h.L, o);
    SameSlotsB(n.slots, o.slots, 64);
  }

  lemma {:induction false} SameSlotsB(a: seq<TSlot>, b: seq<TSlot>, n: nat)
    requires n <= |a| && n <= |b|
    requires forall i :: 0 <= i < n && (a[i].TKid? || b[i].TKid?) ==> a[i] == b[i]
    ensures SlotsB(a, n) == SlotsB(b, n)
  {
    if n > 0 { SameSlotsB(a, b, n - 1); }
  }

  /** A block that goes with one slot is not owned elsewhere in the new tree. */
  lemma GoneElsewhere(ns: seq<TSlot>, os: seq<TSlot>, S: set<Blk>, h: Heap, i: nat, j: nat, b: Blk)
    requires Replaces(h, ns, os, S) && i < 64 && j < 64 && i != j && b in SlotB(os[i])
    ensures b !in SlotB(ns[j]) && b !in SlotB(os[j])
  {
    SharesB(ns[j], os[j], S);
    if i < j { assert SlotB(os[i]) !! SlotB(os[j]); } else { assert SlotB(os[j]) !! SlotB(os[i]); }
  }

  /** The blocks of slot i that go are still allocated after the slots before it were cleaned. */
  lemma GoneStill(h0: Heap, h: Heap, ns: seq<TSlot>, os: seq<TSlot>, S: set<Blk>, i: nat)
    requires Replaces(h0, ns, os, S) && i < 64 && Drops(h0, h, Gone(ns, os, i))
    ensures SlotB(os[i]) - SlotB(ns[i]) <= Blocks(h)
  {
    hide SlotShares, Lin, Drops;
    DropsBlocks(h0, h, Gone(ns, os, i));
    forall b | b in SlotB(os[i]) - SlotB(ns[i]) ensures b in Blocks(h) {
      InGone(ns, os, i, b);
    }
  }

  /** A tree o is being replaced by n. */
  ghost predicate Outdated(h: Heap, n: TSlot, o: Tree, S: set<Blk>) {
    && Seen(h.N, h.L, o) && Lin(o) && B(o) <= S && SlotShares(n, TKid(o), S)
    && (n.TKid? ==> Seen(h.N, h.L, n.t))
    && B(o) - SlotB(n) <= Blocks(h)
  }

  /** The loop over the slots of a replaced node: clean each old child against the new child in
      its slot, or against nothing. */
  method CleanSlots(p: Poptrie, nbase: int, nvec: u64, obase: int, ovec: u64,
                    ghost ns: seq<TSlot>, ghost o: Tree, ghost S: set<Blk>)
    requires p.Mem() && Replaces(p.H(), ns, o.slots, S)
    requires KidsSeen(p.H(), nbase, nvec, ns) && KidsSeen(p.H(), obase, ovec, o.slots)
    modifies p.Foot(), p`trace
    ensures p.Mem() && p.Fails() == old(p.Fails())
    ensures Drops(old(p.H()), p.H(), Gone(ns, o.slots, 64))
    ensures Quiet(old(p.trace), p.trace, Blocks(old(p.H())) - (Gone(ns, o.slots, 64)), 0)
    decreases o, 0
  {
    hide Poptrie.Mem, Poptrie.Fails, Poptrie.Foot, Drops, Replaces, KidsSeen, Gone, Bit, Rank, VecBt, NodeAt,
         Outdated, SlotB, B, Quiet, Blocks;
    p.FootHeld();
    ghost var h0, t0 := p.H(), p.trace;
    ghost var os := o.slots;
    var i, nn, on := 0, 0, 0;
    CleanNothing(p);
    GoneStart(ns, os, h0, S);
    while i < 64
      invariant 0 <= i <= 64 && nn == Rank(nvec, i) && on == Rank(ovec, i)
      invariant p.Mem() && p.Fails() == old(p.Fails())
      invariant |ns| == 64 && |os| == 64 && Drops(h0, p.H(), Gone(ns, os, i))
      invariant Quiet(t0, p.trace, Blocks(h0) - Gone(ns, os, i), 0)
    {
      SlotFacts(h0, p.H(), nbase, nvec, obase, ovec, ns, os, S, i);
      if VecBt(ovec, i) {
        var at := if VecBt(nvec, i) then nbase + nn else -1;
        ghost var h, t := p.H(), p.trace;
        CleanInode(p, at, obase + on, ns[i], os[i].t, S);
        DropsTwice(h0, h, p.H(), Gone(ns, os, i), SlotB(os[i]) - SlotB(ns[i]));
        CleanOn(t0, t, p.trace, h0, h, Gone(ns, os, i), SlotB(os[i]) - SlotB(ns[i]));
        on := on + 1;
      }
      if VecBt(nvec, i) {
        nn := nn + 1;
      }
      GoneStep(ns, os, i);
      RankStep(nvec, i);
      RankStep(ovec, i);
      i := i + 1;
    }
  }

  lemma RankStep(v: u64, i: nat)
    ensures Rank(v, i + 1) == Rank(v, i) + (if Bit(v, i) then 1 else 0)
  {}

  lemma GoneStart(ns: seq<TSlot>, os: seq<TSlot>, h: Heap, S: set<Blk>)
    requires Replaces(h, ns, os, S)
    ensures |ns| == 64 && |os| == 64 && Gone(ns, os, 0) == {}
  {}

  lemma GoneStep(ns: seq<TSlot>, os: seq<TSlot>, i: nat)
    requires i < |ns| && i < |os|
    ensures Gone(ns, os, i + 1) == Gone(ns, os, i) + (SlotB(os[i]) - SlotB(ns[i]))
    ensures os[i].TLeaf? ==> Gone(ns, os, i + 1) == Gone(ns, os, i)
  {}

  /** What one round of the loop needs. */
  lemma SlotFacts(h0: Heap, h: Heap, nbase: int, nvec: u64, obase: int, ovec: u64,
                  ns: seq<TSlot>, os: seq<TSlot>, S: set<Blk>, i: nat)
    requires |ns| == 64 && |os| == 64
    requires Replaces(h0, ns, os, S) && i < 64 && Drops(h0, h, Gone(ns, os, i))
    requires KidsSeen(h0, nbase, nvec, ns) && KidsSeen(h0, obase, ovec, os)
    ensures Bit(ovec, i) == os[i].TKid? && Bit(nvec, i) == ns[i].TKid?
    ensures NodeAt(h, if Bit(nvec, i) then nbase + Rank(nvec, i) else -1, ns[i])
    ensures os[i].TKid? ==>
      0 <= obase + Rank(ovec, i) && NodeAt(h, obase + Rank(ovec, i), os[i]) && Outdated(h, ns[i], os[i].t,
          S) && SlotB(os[i]) == B(os[i].t)
  {
    hide Lin, SlotShares, Seen, Rank, Bit, Replaces, KidsSeen, Drops, Gone;
    ReplacesAt(h0, ns, os, S, i);
    GoneStill(h0, h, ns, os, S, i);
    DropsMem(h0, h, Gone(ns, os, i));
    KidsSeenAt(h0, nbase, nvec, ns, i);
    KidsSeenAt(h0, obase, ovec, os, i);
  }

  lemma DropsMem(h: Heap, h': Heap, F: set<Blk>)
    requires Drops(h, h', F)
    ensures h'.N == h.N && h'.L == h.L
  {}

  lemma ReplacesAt(h: Heap, ns: seq<TSlot>, os: seq<TSlot>, S: set<Blk>, i: nat)
    requires Replaces(h, ns, os, S) && i < 64
    ensures |ns| == 64 && |os| == 64 && SlotShares(ns[i], os[i], S) && SlotB(os[i]) <= S
    ensures os[i].TKid? ==> Lin(os[i].t)
  {}

  lemma KidsSeenAt(h: Heap, base: int, vector: u64, slots: seq<TSlot>, i: nat)
    requires KidsSeen(h, base, vector, slots) && i < 64
    ensures |slots| == 64 && Bit(vector, i) == slots[i].TKid?
    ensures slots[i].TKid? ==>
      && 0 <= base + Rank(vector, i) < |h.N| && h.N[base + Rank(vector, i)] == slots[i].t.nd
      && Seen(h.N, h.L, slots[i].t)
  {}

  /** The slots of the new node, or 64 leaves when there is none. */
  function NewSlots(n: TSlot): seq<TSlot> {
    if n.TKid? then n.t.slots else seq(64, i => TLeaf(0))
  }

  /** The own blocks of o that n does not share. */
  function OwnGone(n: TSlot, o: Tree): set<Blk> {
    Own(o.nd) - (if n.TKid? then Own(n.t.nd) else {})
  }

  /** Slot by slot and then the node's own blocks: exactly what o owns and n does not. */
  lemma GoneIsAll(h: Heap, n: TSlot, o: Tree, S: set<Blk>)
    requires Outdated(h, n, o, S) && |NewSlots(n)| == 64 && |o.slots| == 64
    requires Replaces(h, NewSlots(n), o.slots, S)
    ensures Gone(NewSlots(n), o.slots, 64) + OwnGone(n, o) == B(o) - SlotB(n)
    ensures Gone(NewSlots(n), o.slots, 64) !! Own(o.nd)
  {
    hide Outdated, Replaces, Gone, OwnGone, Own, B, SlotB, NewSlots;
    var ns := NewSlots(n);
    forall b ensures b in Gone(ns, o.slots, 64) + OwnGone(n, o) <==> b in B(o) - SlotB(n) {
      if b in Gone(ns, o.slots, 64) { GoneNotNew(h, n, o, S, b); }
      if b in OwnGone(n, o) { OwnNotNew(h, n, o, S, b); }
      if b in B(o) && b !in SlotB(n) { EitherGone(n, o, b); }
    }
    forall b | b in Gone(ns, o.slots, 64) ensures b !in Own(o.nd) { GoneNotNew(h, n, o, S, b); }
  }

  lemma EitherGone(n: TSlot, o: Tree, b: Blk)
    requires |NewSlots(n)| == 64 && |o.slots| == 64 && b in B(o) && b !in SlotB(n)
    ensures b in Gone(NewSlots(n), o.slots, 64) || b in OwnGone(n, o)
  {
    InGone(NewSlots(n), o.slots, 64, b);
    InSlotsB(o.slots, 64, b);
    InSlotsB(NewSlots(n), 64, b);
    if b in SlotsB(o.slots, 64) {
      var i :| 0 <= i < 64 && b in SlotB(o.slots[i]);
      assert b !in SlotB(NewSlots(n)[i]);
    }
  }

  lemma GoneNotNew(h: Heap, n: TSlot, o: Tree, S: set<Blk>, b: Blk)
    requires Outdated(h, n, o, S) && |NewSlots(n)| == 64 && |o.slots| == 64
    requires Replaces(h, NewSlots(n), o.slots, S)
    requires b in Gone(NewSlots(n), o.slots, 64)
    ensures b in B(o) && b !in SlotB(n) && b !in Own(o.nd)
  {
    hide Seen, SlotShares, Replaces, Lin, Blocks;
    var ns := NewSlots(n);
    InGone(ns, o.slots, 64, b);
    var i :| 0 <= i < 64 && b in SlotB(o.slots[i]) && b !in SlotB(ns[i]);
    SlotInB(o, i);
    OwnNotSlot(o, i, b);
    if n.TKid? {
      InSlotsB(ns, 64, b);
      if b in SlotsB(ns, 64) {
        var j :| 0 <= j < 64 && b in SlotB(ns[j]);
        GoneElsewhere(ns, o.slots, S, h, i, j, b);
      }
      SharesOfKid(n.t, o, S);
      OwnFresh(n.t, o, S, b);
    }
  }

  lemma OwnNotSlot(o: Tree, i: nat, b: Blk)
    requires Lin(o) && i < |o.slots| && b in SlotB(o.slots[i])
    ensures b !in Own(o.nd)
  {}

  lemma SharesOfKid(n: Tree, o: Tree, S: set<Blk>)
    requires SlotShares(TKid(n), TKid(o), S)
    ensures Shares(n, o, S)
  {}

  lemma OwnNotNew(h: Heap, n: TSlot, o: Tree, S: set<Blk>, b: Blk)
    requires Outdated(h, n, o, S) && |NewSlots(n)| == 64 && |o.slots| == 64
    requires Replaces(h, NewSlots(n), o.slots, S)
    requires b in OwnGone(n, o)
    ensures b in B(o) && b !in SlotB(n)
  {
    if n.TKid? {
      var ns := n.t.slots;
      InSlotsB(ns, 64, b);
      if b in SlotsB(ns, 64) {
        var j :| 0 <= j < 64 && b in SlotB(ns[j]);
        SharesB(ns[j], o.slots[j], S);
      }
    }
  }

  /** Sharing holds slot by slot, also where a whole child block is kept. */
  lemma SharesSlots(h: Heap, n: TSlot, o: Tree, S: set<Blk>)
    requires Outdated(h, n, o, S)
    ensures |NewSlots(n)| == 64 && |o.slots| == 64
    ensures forall i :: 0 <= i < 64 ==> SlotShares(NewSlots(n)[i], o.slots[i], S) && SlotB(o.slots[i]) <= S
  {
    hide Seen, Lin;
    SeenSize(h.N, h.L, o);
    if n.TKid? { SeenSize(h.N, h.L, n.t); }
    var ns, os := NewSlots(n), o.slots;
    forall i | 0 <= i < 64 ensures SlotShares(ns[i], os[i], S) && SlotB(os[i]) <= S {
      SlotInB(o, i);
      if n.TKid? {
        SharesOfKid(n.t, o, S);
        if KidsSame(n.t, o) && ns[i].TKid? {
          SeenKid(h, o, i);
          assert ns[i] == os[i];
          SharesSelf(ns[i], S);
        }
      }
    }
  }

  /** The slots of an outdated tree are outdated slot by slot. */
  lemma OutdatedSlots(h: Heap, n: TSlot, o: Tree, S: set<Blk>)
    requires Outdated(h, n, o, S)
    ensures |NewSlots(n)| == 64 && |o.slots| == 64 && Replaces(h, NewSlots(n), o.slots, S)
  {
    hide Seen, SlotShares;
    SharesSlots(h, n, o, S);
    var ns, os := NewSlots(n), o.slots;
    forall i | 0 <= i < 64 ensures SlotB(os[i]) - SlotB(ns[i]) <= Blocks(h) {
      OutdatedSlot(h, n, o, S, i);
    }
  }

  lemma SeenKid(h: Heap, o: Tree, i: nat)
    requires Seen(h.N, h.L, o) && i < 64
    ensures |o.slots| == 64 && (o.slots[i].TKid? ==> |o.slots[i].t.slots| == 64)
  {}

  lemma OutdatedSlot(h: Heap, n: TSlot, o: Tree, S: set<Blk>, i: nat)
    requires Outdated(h, n, o, S) && i < 64
    ensures |NewSlots(n)| == 64 && |o.slots| == 64
    ensures SlotB(o.slots[i]) - SlotB(NewSlots(n)[i]) <= Blocks(h)
  {
    hide Seen;
    SharesSlots(h, n, o, S);
    var ns, os := NewSlots(n), o.slots;
    SlotInB(o, i);
    assert Own(o.nd) !! SlotB(os[i]);
    forall b | b in SlotB(os[i]) && b !in SlotB(ns[i]) ensures b in Blocks(h) {
      if n.TKid? {
        InSlotsB(ns, 64, b);
        if b in SlotsB(ns, 64) {
          var j :| 0 <= j < 64 && b in SlotB(ns[j]);
          SharesB(ns[j], os[j], S);
          OtherSlot(o, i, j, b);
        }
        SharesOfKid(n.t, o, S);
        OwnFresh(n.t, o, S, b);
        assert SlotB(n) == Own(n.t.nd) + SlotsB(ns, 64);
      }
    }
  }

  lemma OtherSlot(o: Tree, i: nat, j: nat, b: Blk)
    requires Lin(o) && |o.slots| == 64 && i < 64 && j < 64 && i != j && b in SlotB(o.slots[i])
    ensures b !in SlotB(o.slots[j])
  {
    if i < j { assert SlotB(o.slots[i]) !! SlotB(o.slots[j]); } else { assert SlotB(o.slots[j]) !! SlotB(o.slots[i]); }
  }

  lemma OwnFresh(n: Tree, o: Tree, S: set<Blk>, b: Blk)
    requires Shares(n, o, S) && b in S && b !in Own(o.nd)
    ensures b !in Own(n.nd)
  {}

  /** _update_clean_inode: free what the tree at oinode owns and the tree at ninode (if any) does not. */
  method CleanInode(p: Poptrie, ninode: int, oinode: nat, ghost n: TSlot, ghost o: Tree, ghost S: set<Blk>)
    requires p.Mem() && NodeAt(p.H(), ninode, n) && NodeAt(p.H(), oinode, TKid(o)) && Outdated(p.H(), n, o, S)
    modifies p.Foot(), p`trace
    ensures p.Mem() && p.Fails() == old(p.Fails())
    ensures Drops(old(p.H()), p.H(), B(o) - SlotB(n))
    ensures Quiet(old(p.trace), p.trace, Blocks(old(p.H())) - (B(o) - SlotB(n)), 0)
    decreases o, 1
  {
    hide Poptrie.Mem, Poptrie.Fails, Poptrie.Foot, Drops, Outdated, KidsSeen, Gone, Replaces, Seen, Lin, Own, B,
         SlotB, SlotShares, Quiet, Blocks;
    ghost var t := p.trace;
    if ninode == oinode {
      IdenticalNode(p.H(), ninode, n, o, S);
      CleanNothing(p);
      return;
    }
    OutdatedSlots(p.H(), n, o, S);
    GoneIsAll(p.H(), n, o, S);
    OutdatedSeen(p.H(), n, o, S);
    NodeKidsSeen(p.H(), o);
    var od := p.nodes[oinode];
    var nbase: int, nvec: u64 := -1, 0;
    if ninode >= 0 {
      var nd := p.nodes[ninode];
      nbase, nvec := nd.base1, nd.vector;
      NodeKidsSeen(p.H(), n.t);
    } else {
      NoKidsSeen(p.H());
    }
    ghost var h := p.H();
    CleanSlots(p, nbase, nvec, od.base1, od.vector, NewSlots(n), o, S);
    ghost var h1, t1 := p.H(), p.trace;
    DropsMem(h, h1, Gone(NewSlots(n), o.slots, 64));
    if ninode >= 0 {
      FreeOwn(p, od, p.nodes[ninode].base1, p.nodes[ninode].base0, n, o, h, Gone(NewSlots(n), o.slots, 64));
    } else {
      FreeOwn(p, od, NONE, NONE, n, o, h, Gone(NewSlots(n), o.slots, 64));
    }
    DropsTwice(h, h1, p.H(), Gone(NewSlots(n), o.slots, 64), OwnGone(n, o));
    CleanOn(t, t1, p.trace, h, h1, Gone(NewSlots(n), o.slots, 64), OwnGone(n, o));
  }

  lemma IdenticalNode(h: Heap, inode: int, n: TSlot, o: Tree, S: set<Blk>)
    requires NodeAt(h, inode, n) && NodeAt(h, inode, TKid(o)) && Outdated(h, n, o, S)
    ensures B(o) - SlotB(n) == {}
  {
    SameNode(h, n.t, o, S);
  }

  lemma OutdatedSeen(h: Heap, n: TSlot, o: Tree, S: set<Blk>)
    requires Outdated(h, n, o, S)
    ensures Seen(h.N, h.L, o) && (n.TKid? ==> Seen(h.N, h.L, n.t)) && B(o) - SlotB(n) <= Blocks(h)
  {}

  lemma NoKidsSeen(h: Heap)
    ensures KidsSeen(h, -1, 0, seq(64, i => TLeaf(0)))
  {
    forall i | 0 <= i < 64 ensures !Bit(0, i) { BitOfZero(i); }
  }

  /** Free the old node's child block and leaf block unless the new node has the same. */
  method FreeOwn(p: Poptrie, od: PNode, nbase1: u32, nbase0: u32,
                 ghost n: TSlot, ghost o: Tree, ghost h0: Heap, ghost F: set<Blk>)
    requires p.Mem() && od == o.nd && Drops(h0, p.H(), F) && F !! Own(o.nd)
    requires B(o) - SlotB(n) <= Blocks(h0) && OwnGone(n, o) <= B(o) - SlotB(n)
    requires if n.TKid? then nbase1 == n.t.nd.base1 && nbase0 == n.t.nd.base0 else nbase1 == NONE == nbase0
    modifies p.Foot(), p`trace
    ensures p.Mem() && p.Fails() == old(p.Fails())
    ensures Drops(old(p.H()), p.H(), OwnGone(n, o))
    ensures Quiet(old(p.trace), p.trace, Blocks(old(p.H())) - (OwnGone(n, o)), 0)
  {
    hide Poptrie.Mem, Poptrie.Fails, Poptrie.Foot, Drops, B, SlotB, Blocks, Quiet;
    DropsBlocks(h0, p.H(), F);
    ghost var h, t := p.H(), p.trace;
    CleanNothing(p);
    ghost var G: set<Blk> := {};
    if od.base1 != NONE && od.base1 != nbase1 {
      assert NB(od.base1) in OwnGone(n, o);
      InBlocks(h, NB(od.base1));
      DropsNode(h, od.base1);
      p.FreeNodes(od.base1);
      G := {NB(od.base1)};
    }
    ghost var h1, t1 := p.H(), p.trace;
    if od.base0 != NONE && od.base0 != nbase0 {
      assert LB(od.base0) in OwnGone(n, o);
      InBlocks(h, LB(od.base0));
      InBlocks(h1, LB(od.base0));
      DropsLeaf(h1, od.base0);
      p.FreeLeaves(od.base0);
      DropsTwice(h, h1, p.H(), G, {LB(od.base0)});
      CleanOn(t, t1, p.trace, h, h1, G, {LB(od.base0)});
      G := G + {LB(od.base0)};
    }
    assert G == OwnGone(n, o);
  }

  /** _update_clean_root: a new root block replaces an old one. */
  method CleanRoot(p: Poptrie, nroot: nat, oroot: nat, ghost n: Tree, ghost o: Tree, ghost S: set<Blk>)
    requires p.Mem() && NodeAt(p.H(), nroot, TKid(n)) && NodeAt(p.H(), oroot, TKid(o)) && Outdated(p.H(), TKid(n), o, S)
    requires nroot != oroot && oroot in p.H().ln && NB(oroot) !in B(o)
    modifies p.Foot(), p`trace
    ensures p.Mem() && p.Fails() == old(p.Fails())
    ensures Drops(old(p.H()), p.H(), (B(o) - B(n)) + {NB(oroot)})
    ensures Quiet(old(p.trace), p.trace, Blocks(old(p.H())) - ((B(o) - B(n)) + {NB(oroot)}), 0)
  {
    hide Poptrie.Mem, Poptrie.Fails, Poptrie.Foot, Drops, Outdated, KidsSeen, Gone, Replaces, Seen, Lin, Own, B,
         SlotShares, Blocks, Quiet;
    ghost var h, t := p.H(), p.trace;
    OutdatedSlots(h, TKid(n), o, S);
    GoneIsAll(h, TKid(n), o, S);
    OutdatedSeen(h, TKid(n), o, S);
    NodeKidsSeen(h, o);
    NodeKidsSeen(h, n);
    var od, nd := p.nodes[oroot], p.nodes[nroot];
    CleanSlots(p, nd.base1, nd.vector, od.base1, od.vector, n.slots, o, S);
    ghost var h1, t1 := p.H(), p.trace;
    DropsMem(h, h1, Gone(n.slots, o.slots, 64));
    FreeOwn(p, od, p.nodes[nroot].base1, p.nodes[nroot].base0, TKid(n), o, h, Gone(n.slots, o.slots, 64));
    DropsTwice(h, h1, p.H(), Gone(n.slots, o.slots, 64), OwnGone(TKid(n), o));
    CleanOn(t, t1, p.trace, h, h1, Gone(n.slots, o.slots, 64), OwnGone(TKid(n), o));
    ghost var h2, t2 := p.H(), p.trace;
    DropsBlocks(h, h2, B(o) - B(n));
    InBlocks(h, NB(oroot));
    InBlocks(h2, NB(oroot));
    DropsNode(h2, oroot);
    p.FreeNodes(oroot);
    DropsTwice(h, h2, p.H(), B(o) - B(n), {NB(oroot)});
    CleanOn(t, t2, p.trace, h, h2, B(o) - B(n), {NB(oroot)});
  }

  /** _update_clean_node: a node whose structure was changed in place has left its old child block. */
  method CleanNode(p: Poptrie, node: PNode, oinode: u32, ghost ns: seq<TSlot>, ghost o: Tree, ghost S: set<Blk>)
    requires p.Mem() && Replaces(p.H(), ns, o.slots, S)
    requires KidsSeen(p.H(), node.base1, node.vector, ns) && KidsSeen(p.H(), oinode, node.vector, o.slots)
    requires oinode != NONE ==> oinode in p.H().ln && NB(oinode) !in Gone(ns, o.slots, 64) && node.base1 != oinode
    requires oinode == NONE ==> forall i :: 0 <= i < 64 ==> o.slots[i].TLeaf?
    modifies p.Foot(), p`trace
    ensures p.Mem() && p.Fails() == old(p.Fails())
    ensures Drops(old(p.H()), p.H(), if oinode == NONE then {} else Gone(ns, o.slots, 64) + {NB(oinode)})
    ensures Quiet(old(p.trace), p.trace,
                  Blocks(old(p.H())) - (if oinode == NONE then {} else Gone(ns, o.slots, 64) + {NB(oinode)}), 0)
  {
    hide Poptrie.Mem, Poptrie.Fails, Poptrie.Foot, Drops, Replaces, KidsSeen, Gone, Blocks, Quiet;
    ghost var h, t := p.H(), p.trace;
    GoneStart(ns, o.slots, h, S);
    if oinode == NONE {
      CleanNothing(p);
      return;
    }
    CleanSlots(p, node.base1, node.vector, oinode, node.vector, ns, o, S);
    ghost var h1, t1 := p.H(), p.trace;
    if node.base1 != oinode {
      DropsBlocks(h, h1, Gone(ns, o.slots, 64));
      InBlocks(h, NB(oinode));
      InBlocks(h1, NB(oinode));
      DropsNode(h1, oinode);
      p.FreeNodes(oinode);
      DropsTwice(h, h1, p.H(), Gone(ns, o.slots, 64), {NB(oinode)});
      CleanOn(t, t1, p.trace, h, h1, Gone(ns, o.slots, 64), {NB(oinode)});
    }
  }

  /** _update_clean_subtree: free everything below oinode, which keeps its own place. */
  method CleanSubtree(p: Poptrie, oinode: nat, ghost o: Tree)
    requires p.Mem() && NodeAt(p.H(), oinode, TKid(o)) && Lin(o) && B(o) <= Blocks(p.H())
    modifies p.Foot(), p`trace
    ensures p.Mem() && p.Fails() == old(p.Fails())
    ensures Drops(old(p.H()), p.H(), B(o))
    ensures Quiet(old(p.trace), p.trace, Blocks(old(p.H())) - (B(o)), 0)
    decreases o
  {
    hide Poptrie.Mem, Poptrie.Fails, Poptrie.Foot, Drops, KidsSeen, Seen, Own, Bit, Rank, SlotsB, Quiet, Blocks;
    p.FootHeld();
    ghost var h0, t0 := p.H(), p.trace;
    SeenSize(h0.N, h0.L, o);
    NodeKidsSeen(h0, o);
    var node := p.nodes[oinode];
    var i, n := 0, 0;
    CleanNothing(p);
    NoSlotsB(o.slots);
    while i < 64
      invariant 0 <= i <= 64 && n == Rank(node.vector, i)
      invariant p.Mem() && p.Fails() == old(p.Fails())
      invariant Drops(h0, p.H(), SlotsB(o.slots, i))
      invariant Quiet(t0, p.trace, Blocks(h0) - SlotsB(o.slots, i), 0)
    {
      SubtreeFacts(h0, p.H(), o, i);
      if VecBt(node.vector, i) {
        ghost var h, t := p.H(), p.trace;
        CleanSubtree(p, node.base1 + n, o.slots[i].t);
        DropsTwice(h0, h, p.H(), SlotsB(o.slots, i), B(o.slots[i].t));
        CleanOn(t0, t, p.trace, h0, h, SlotsB(o.slots, i), B(o.slots[i].t));
        n := n + 1;
      }
      RankStep(node.vector, i);
      SlotsBStep(o.slots, i);
      i := i + 1;
    }
    OwnApart(o);
    DropsBlocks(h0, p.H(), SlotsB(o.slots, 64));
    ghost var h, t := p.H(), p.trace;
    FreeOwn(p, node, NONE, NONE, TLeaf(0), o, h0, SlotsB(o.slots, 64));
    DropsTwice(h0, h, p.H(), SlotsB(o.slots, 64), OwnGone(TLeaf(0), o));
    CleanOn(t0, t, p.trace, h0, h, SlotsB(o.slots, 64), OwnGone(TLeaf(0), o));
  }

  lemma NoSlotsB(slots: seq<TSlot>)
    ensures SlotsB(slots, 0) == {}
  {}

  lemma SlotsBStep(slots: seq<TSlot>, i: nat)
    requires i < |slots|
    ensures SlotsB(slots, i + 1) == SlotsB(slots, i) + SlotB(slots[i])
    ensures slots[i].TLeaf? ==> SlotsB(slots, i + 1) == SlotsB(slots, i)
  {}

  lemma OwnApart(o: Tree)
    requires Lin(o) && |o.slots| == 64
    ensures SlotsB(o.slots, 64) !! Own(o.nd) && B(o) == SlotsB(o.slots, 64) + OwnGone(TLeaf(0), o)
  {
    forall b | b in SlotsB(o.slots, 64) ensures b !in Own(o.nd) {
      InSlotsB(o.slots, 64, b);
      var i :| 0 <= i < 64 && b in SlotB(o.slots[i]);
      assert Own(o.nd) !! SlotB(o.slots[i]);
    }
  }

  lemma SubtreeFacts(h0: Heap, h: Heap, o: Tree, i: nat)
    requires Seen(h0.N, h0.L, o) && Lin(o) && B(o) <= Blocks(h0) && i < 64 && |o.slots| == 64
    requires Drops(h0, h, SlotsB(o.slots, i)) && KidsSeen(h0, o.nd.base1, o.nd.vector, o.slots)
    ensures Bit(o.nd.vector, i) == o.slots[i].TKid?
    ensures o.slots[i].TKid? ==>
      && NodeAt(h, o.nd.base1 + Rank(o.nd.vector, i), o.slots[i])
      && Lin(o.slots[i].t) && B(o.slots[i].t) <= Blocks(h)
  {
    hide Seen, Rank, Bit, KidsSeen, Drops, Lin, B, Blocks, SlotB;
    DropsBlocks(h0, h, SlotsB(o.slots, i));
    DropsMem(h0, h, SlotsB(o.slots, i));
    KidsSeenAt(h0, o.nd.base1, o.nd.vector, o.slots, i);
    LinAt(o, i);
    SlotInB(o, i);
    if o.slots[i].TKid? { SlotBOf(o.slots[i]); }
  }

  lemma SlotBOf(s: TSlot)
    ensures s.TKid? ==> SlotB(s) == B(s.t)
  {}

  lemma LinAt(o: Tree, i: nat)
    requires Lin(o) && i < |o.slots|
    ensures o.slots[i].TKid? ==> Lin(o.slots[i].t)
    ensures SlotB(o.slots[i]) !! SlotsB(o.slots, i)
  {
    hide B;
    forall b | b in SlotB(o.slots[i]) ensures b !in SlotsB(o.slots, i) { InSlotsB(o.slots, i, b); }
  }
}
