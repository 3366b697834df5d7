/** The direct-pointing entries: what they hold, and how an entry is replaced by one store after
    everything it refers to has been built. */
module Entries {
  import opened Bits
  import opened BuddyModel
  import opened Rib
  import opened Trie
  import opened Radix
  import opened Triangle
  import opened Store
  import opened Sharing
  import opened Trace
  import opened Cost
  import opened PoptrieState
  import opened Build
  import opened Clean

  /** The entry w is the next hop e, or the place of a root node, in a block of its own, whose tree is e. */
  ghost predicate EntryAt(h: Heap, w: u32, e: TSlot) {
    match e
    case TLeaf(v) => w == LEAF_TAG + v
    case TKid(t) =>
      && w < LEAF_TAG && w in h.ln && h.ln[w] == 0 && w < |h.N| && h.N[w] == t.nd
      && Rep(h, t) && Lin(t) && NB(w) !in B(t)
  }

  /** The blocks that an entry owns: its root block and those of the tree. */
  ghost function EntryB(w: u32, e: TSlot): set<Blk> {
    if e.TKid? then {NB(w)} + B(e.t) else {}
  }

  lemma EntryBlocks(h: Heap, w: u32, e: TSlot)
    requires EntryAt(h, w, e)
    ensures EntryB(w, e) <= Blocks(h)
  {
    if e.TKid? {
      HeldBlocks(h, e.t);
      InBlocks(h, NB(w));
    }
  }

  /** An entry survives any change that spares its blocks. */
  lemma EntryKept(h: Heap, h': Heap, S: set<Blk>, w: u32, e: TSlot)
    requires EntryAt(h, w, e) && Keeps(h, h', S) && EntryB(w, e) <= S
    ensures EntryAt(h', w, e)
  {
    if e.TKid? {
      RepKept(h, h', S, e.t);
      assert KeepsBlock(h, h', NB(w));
    }
  }

  lemma EntryGrows(h: Heap, h': Heap, w: u32, e: TSlot)
    requires EntryAt(h, w, e) && Grows(h, h')
    ensures EntryAt(h', w, e)
  {
    hide Grows;
    EntryBlocks(h, w, e);
    GrowsKeeps(h, h');
    EntryKept(h, h', Blocks(h), w, e);
  }

  lemma GrowsKeeps(h: Heap, h': Heap)
    requires Grows(h, h')
    ensures Keeps(h, h', Blocks(h))
  {}

  // ----- replacing an entry

  /** Memory hb has the new entry (w', e) built beside everything that h0 had. */
  ghost predicate Renewed(h0: Heap, hb: Heap, w: u32, o: TSlot, w': u32, e: TSlot) {
    && Grows(h0, hb) && Blocks(hb) == Blocks(h0) + EntryB(w', e)
    && EntryB(w', e) * Blocks(h0) <= EntryB(w, o)
    && EntryAt(hb, w', e) && SlotShares(e, o, Blocks(h0)) && SlotB(o) <= Blocks(h0)
    && (e.TKid? ==> NB(w') !in Blocks(h0))
  }

  /** Memory h after a store to the node structure at `at`. */
  ghost function StoreNode(h: Heap, at: nat, nd: PNode): Heap
    requires at < |h.N|
  {
    h.(N := h.N[at := nd])
  }

  /** ha is hb, or hb after a store to one node structure. */
  ghost predicate AtMostOneStore(hb: Heap, ha: Heap) {
    ha == hb || exists at: nat, nd: PNode :: at < |hb.N| && ha == StoreNode(hb, at, nd)
  }

  /** The entry changed from (w, o) to (w', e): up to hb only free memory changed, one store made
      it ha, which holds the new entry, and then exactly the blocks that only the old entry owned
      were freed. */
  ghost predicate Switched(h0: Heap, hb: Heap, ha: Heap, h: Heap, w: u32, o: TSlot, w': u32, e: TSlot) {
    && Grows(h0, hb)
    && AtMostOneStore(hb, ha) && (ha == hb || w' == w)
    && EntryAt(ha, w', e)
    && Blocks(ha) == Blocks(h0) + EntryB(w', e)
    && EntryB(w', e) * Blocks(h0) <= EntryB(w, o) <= Blocks(h0)
    && Drops(ha, h, EntryB(w, o) - EntryB(w', e))
    && Keeps(h0, ha, Blocks(h0) - EntryB(w, o)) && Keeps(h0, h, Blocks(h0) - EntryB(w, o))
  }

  /** After the switch the new entry stands, the other blocks are untouched, and the live blocks
      are the old ones with the entry's blocks exchanged: none leaked, none freed twice. */
  lemma SwitchedEntry(h0: Heap, hb: Heap, ha: Heap, h: Heap, w: u32, o: TSlot, w': u32, e: TSlot)
    requires Switched(h0, hb, ha, h, w, o, w', e)
    ensures EntryAt(h, w', e)
    ensures Blocks(h) == (Blocks(h0) - EntryB(w, o)) + EntryB(w', e)
    ensures (Blocks(h0) - EntryB(w, o)) !! EntryB(w', e)
  {
    hide Grows, EntryAt, Drops, EntryB, Keeps, AtMostOneStore;
    var F := EntryB(w, o) - EntryB(w', e);
    DropsBlocks(ha, h, F);
    EntryBlocks(ha, w', e);
    EntryKept(ha, h, Blocks(ha) - F, w', e);
  }

  lemma RenewedSwitch(h0: Heap, hb: Heap, h: Heap, w: u32, o: TSlot, w': u32, e: TSlot)
    requires Renewed(h0, hb, w, o, w', e) && EntryB(w, o) <= Blocks(h0)
    requires Drops(hb, h, EntryB(w, o) - EntryB(w', e))
    ensures Switched(h0, hb, hb, h, w, o, w', e)
  {
    hide EntryAt, Drops, EntryB, Keeps, SlotShares, AtMostOneStore;
    var F, S := EntryB(w, o) - EntryB(w', e), Blocks(h0) - EntryB(w, o);
    assert AtMostOneStore(hb, hb) by { OneSelf(hb); }
    DropsBlocks(hb, h, F);
    KeepsLess(hb, h, Blocks(hb) - F, S);
    KeepsLess(h0, hb, Blocks(h0), S);
    KeepsTransitive(h0, hb, h, S);
  }

  lemma OneSelf(h: Heap)
    ensures AtMostOneStore(h, h)
  {}

  /** A built root tree becomes a new entry once it has a root block. */
  lemma NewRoot(h0: Heap, h: Heap, hb: Heap, w: u32, o: TSlot, w': nat, t: Tree)
    requires EntryAt(h0, w, o) && SlotBuilt(h0, h, o, TKid(t))
    requires Grows(h, hb) && Blocks(hb) == Blocks(h) + {NB(w')} && NB(w') !in Blocks(h)
    requires w' < LEAF_TAG && w' < |hb.N| && hb.N[w'] == t.nd && w' in hb.ln && hb.ln[w'] == 0
    ensures Renewed(h0, hb, w, o, w', TKid(t))
  {
    hide Grows, Shares, Rep, Lin;
    GrowsTransitive(h0, h, hb);
    EntryBlocks(h0, w, o);
    SharesB(TKid(t), o, Blocks(h0));
    RepGrows(h, hb, t);
    HeldRep(h, t);
    InBlocks(hb, NB(w'));
  }

  lemma HeldRep(h: Heap, t: Tree)
    requires Rep(h, t)
    ensures B(t) <= Blocks(h)
  {
    HeldBlocks(h, t);
  }

  /** A single next hop becomes a new entry. */
  lemma NewLeaf(h0: Heap, h: Heap, w: u32, o: TSlot, v: u16)
    requires EntryAt(h0, w, o) && SlotBuilt(h0, h, o, TLeaf(v))
    ensures Renewed(h0, h, w, o, LEAF_TAG + v, TLeaf(v))
  {
    hide Grows, Rep, Lin;
    EntryBlocks(h0, w, o);
  }

  /** What cleaning an outdated root needs. */
  lemma RootOutdated(h0: Heap, h: Heap, w: u32, o: Tree, w': u32, t: Tree)
    requires EntryAt(h0, w, TKid(o)) && EntryAt(h, w, TKid(o)) && EntryAt(h, w', TKid(t))
    requires SlotShares(TKid(t), TKid(o), Blocks(h0)) && NB(w') !in Blocks(h0)
    ensures NodeAt(h, w', TKid(t)) && NodeAt(h, w, TKid(o)) && Outdated(h, TKid(t), o, Blocks(h0))
    ensures w' != w && (B(o) - B(t)) + {NB(w)} == EntryB(w, TKid(o)) - EntryB(w', TKid(t))
  {
    hide Grows, Shares, Seen, Held, Lin;
    EntryBlocks(h0, w, TKid(o));
    EntryBlocks(h, w, TKid(o));
    SharesB(TKid(t), TKid(o), Blocks(h0));
  }

  /** Free a whole entry: the tree below its root, and the root block. */
  method CleanWhole(p: Poptrie, w: u32, ghost o: TSlot)
    requires p.Mem() && EntryAt(p.H(), w, o) && w < LEAF_TAG
    modifies p.Foot(), p`trace
    ensures p.Mem() && p.Fails() == old(p.Fails())
    ensures Drops(old(p.H()), p.H(), EntryB(w, o))
    ensures Quiet(old(p.trace), p.trace, Blocks(old(p.H())) - (EntryB(w, o)), 0)
  {
    hide Poptrie.Mem, Poptrie.Fails, Poptrie.Foot, Drops, Lin, B, Blocks, EntryAt, EntryB, NodeAt, Quiet;
    ghost var h, t := p.H(), p.trace;
    LeafOwnsNone(h, w, o);
    EntryRoot(h, w, o);
    CleanSubtree(p, w, o.t);
    ghost var h1, t1 := p.H(), p.trace;
    DropsBlocks(h, h1, B(o.t));
    InBlocks(h, NB(w));
    InBlocks(h1, NB(w));
    DropsNode(h1, w);
    p.FreeNodes(w);
    DropsTwice(h, h1, p.H(), B(o.t), {NB(w)});
    CleanOn(t, t1, p.trace, h, h1, B(o.t), {NB(w)});
  }

  /** The root block and the tree of an entry that is a node. */
  lemma EntryRoot(h: Heap, w: u32, e: TSlot)
    requires EntryAt(h, w, e) && e.TKid?
    ensures w in h.ln && NB(w) !in B(e.t) && EntryB(w, e) == B(e.t) + {NB(w)}
    ensures NodeAt(h, w, e) && Lin(e.t) && B(e.t) <= Blocks(h)
  {
    hide Lin, B, Seen, Held;
    HeldRep(h, e.t);
  }

  /** Free what only the old entry owned, after the new entry was published. */
  method CleanEntry(p: Poptrie, w': u32, w: u32, ghost h0: Heap, ghost o: TSlot, ghost e: TSlot)
    requires p.Mem() && EntryAt(h0, w, o) && EntryAt(p.H(), w, o) && EntryAt(p.H(), w', e)
    requires SlotShares(e, o, Blocks(h0)) && (e.TKid? ==> NB(w') !in Blocks(h0))
    modifies p.Foot(), p`trace
    ensures p.Mem() && p.Fails() == old(p.Fails())
    ensures Drops(old(p.H()), p.H(), EntryB(w, o) - EntryB(w', e))
    ensures Quiet(old(p.trace), p.trace, Blocks(old(p.H())) - (EntryB(w, o) - EntryB(w', e)), 0)
  {
    hide Poptrie.Mem, Poptrie.Fails, Poptrie.Foot, Drops, SlotShares, EntryAt, EntryB, Outdated, Blocks, NodeAt, B,
         Quiet;
    LeafOwnsNone(p.H(), w, o);
    LeafOwnsNone(p.H(), w', e);
    if w' >= LEAF_TAG && w < LEAF_TAG {
      CleanWhole(p, w, o);
      assert EntryB(w, o) - {} == EntryB(w, o);
    } else if w < LEAF_TAG {
      EntryRoot(p.H(), w, o);
      RootOutdated(h0, p.H(), w, o.t, w', e.t);
      CleanRoot(p, w', w, e.t, o.t, Blocks(h0));
    } else {
      CleanNothing(p);
      assert {} - EntryB(w', e) == {};
    }
  }

  lemma LeafOwnsNone(h: Heap, w: u32, e: TSlot)
    requires EntryAt(h, w, e)
    ensures e.TLeaf? <==> w >= LEAF_TAG
    ensures e.TLeaf? ==> EntryB(w, e) == {}
  {}

  /** A fresh block that holds one node structure. */
  method PlaceRoot(p: Poptrie, nd: PNode) returns (a: int)
    requires p.Mem()
    modifies p.Foot(), p`trace
    ensures p.Mem() && a < NONE && Quiet(old(p.trace), p.trace, Blocks(old(p.H())), 1)
    ensures a < 0 ==> p.H() == old(p.H()) && p.Fails() > old(p.Fails())
    ensures a >= 0 ==>
      && p.Fails() == old(p.Fails()) && a < LEAF_TAG && a < |p.H().N| && p.H().N[a] == nd
      && a in p.H().ln && p.H().ln[a] == 0
      && Grows(old(p.H()), p.H()) && Blocks(p.H()) == Blocks(old(p.H())) + {NB(a)} && NB(a) !in Blocks(old(p.H()))
  {
    hide Poptrie.Mem, Poptrie.Fails, Poptrie.Foot, Grows, Blocks, Quiet, Tight, Unclaimed;
    p.MemTrace();
    ghost var h := p.H();
    a := p.AllocNodes(0);
    if a < 0 { return; }
    ghost var h1, t1 := p.H(), p.trace;
    OneBlock(p, h, a, nd);
    p.CopyNodes(a, [nd]);
    BuildOn(old(p.trace), t1, p.trace, Blocks(h), Blocks(h1) - {NB(a)}, 1, 0);
  }

  /** The end of _update_part: give the new root node a block, publish it with one store, and
      clean the old tree. */
  method InstallRoot(p: Poptrie, nd: PNode, d: array<u32>, i: nat, alt: bool, ghost h0: Heap, ghost o: TSlot,
          ghost t: Tree)
    returns (ok: bool, ghost hb: Heap, ghost sw: nat)
    requires p.Mem() && SlotBuilt(h0, p.H(), o, TKid(t)) && nd == t.nd
    requires i < d.Length && EntryAt(h0, d[i], o)
    requires d !in p.Foot() && p !in p.Foot() && d == (if alt then p.altdir else p.dir)
    modifies p.Foot(), d, p`root, p`trace
    ensures p.Mem()
    ensures !ok ==> Grows(h0, p.H()) && p.Fails() > old(p.Fails()) && d[..] == old(d[..])
    ensures ok ==>
      && p.Fails() == old(p.Fails()) && d[..] == old(d[..])[i := d[i]]
      && Renewed(h0, hb, old(d[i]), o, d[i], TKid(t))
      && Drops(hb, p.H(), if alt then {} else EntryB(old(d[i]), o) - EntryB(d[i], TKid(t)))
    ensures !ok || alt ==> Quiet(old(p.trace), p.trace, Blocks(old(p.H())), 1)
    ensures ok && !alt ==>
      Handed(old(p.trace), p.trace, sw, hb, hb, d[..], EntryB(old(d[i]), o) - EntryB(d[i], TKid(t)), 1)
  {
    hide Poptrie.Mem, Poptrie.Fails, Poptrie.Foot, Drops, SlotShares, EntryAt, Renewed, EntryB, SlotBuilt, Grows,
         Blocks, Quiet, Handed, Tight, Unclaimed;
    p.FootHeld();
    p.MemTrace();
    ghost var h, t0 := p.H(), p.trace;
    sw := 0;
    var oroot := d[i];
    var nroot := PlaceRoot(p, nd);
    if nroot < 0 {
      BuiltGrows(h0, h, o, TKid(t));
      return false, h, 0;
    }
    hb := p.H();
    ghost var tb := p.trace;
    NewRoot(h0, h, hb, oroot, o, nroot, t);
    p.MemTrace();
    p.root := nroot;
    p.StoreDirect(d, i, nroot);
    if !alt {
      RenewedEntry(h0, hb, oroot, o, nroot, TKid(t));
      CleanEntry(p, nroot, oroot, h0, o, TKid(t));
      sw := |tb|;
      HandOver(t0, tb, Last(tb).(ds := d[..]), p.trace, EntryB(oroot, o) - EntryB(nroot, TKid(t)), 1);
    } else {
      DropsNone(hb);
    }
    ok := true;
  }

  /** The same for a block that has become a single next hop. */
  method InstallLeaf(p: Poptrie, sleaf: u16, d: array<u32>, i: nat, alt: bool, ghost h0: Heap, ghost t0: seq<Moment>,
                     ghost o: TSlot, ghost n: nat)
    returns (ghost sw: nat)
    requires p.Mem() && SlotBuilt(h0, p.H(), o, TLeaf(sleaf)) && i < d.Length && EntryAt(h0, d[i], o)
    requires d !in p.Foot() && p !in p.Foot() && d == (if alt then p.altdir else p.dir)
    requires |t0| > 0 && Last(t0).h == h0 && Quiet(t0, p.trace, Blocks(h0), n)
    modifies p.Foot(), d, p`trace
    ensures p.Mem() && p.Fails() == old(p.Fails()) && d[..] == old(d[..])[i := LEAF_TAG + sleaf]
    ensures Renewed(h0, old(p.H()), old(d[i]), o, d[i], TLeaf(sleaf))
    ensures Drops(old(p.H()), p.H(), if alt then {} else EntryB(old(d[i]), o) - EntryB(d[i], TLeaf(sleaf)))
    ensures alt ==> Quiet(t0, p.trace, Blocks(h0), n)
    ensures !alt ==> Handed(t0, p.trace, sw, old(p.H()), old(p.H()), d[..],
                            EntryB(old(d[i]), o) - EntryB(d[i], TLeaf(sleaf)), n)
  {
    hide Poptrie.Mem, Poptrie.Fails, Poptrie.Foot, Drops, SlotShares, EntryAt, Renewed, EntryB, SlotBuilt, Grows,
         Blocks, Quiet, Handed;
    p.FootHeld();
    p.MemTrace();
    ghost var h, tb, e := p.H(), p.trace, TLeaf(sleaf);
    var w := d[i];
    NewLeaf(h0, h, w, o, sleaf);
    p.StoreDirect(d, i, LEAF_TAG + sleaf);
    sw := |tb|;
    if !alt {
      RenewedEntry(h0, h, w, o, LEAF_TAG + sleaf, e);
      CleanEntry(p, LEAF_TAG + sleaf, w, h0, o, e);
      HandOver(t0, tb, Last(tb).(ds := d[..]), p.trace, EntryB(w, o) - EntryB(LEAF_TAG + sleaf, e), n);
    } else {
      DropsNone(h);
    }
  }

  lemma BuiltGrows(h0: Heap, h: Heap, o: TSlot, s: TSlot)
    requires SlotBuilt(h0, h, o, s)
    ensures Grows(h0, h)
  {}

  lemma BuiltMore(h0: Heap, h: Heap, o: TSlot, s: TSlot)
    requires SlotBuilt(h0, h, o, s)
    ensures Blocks(h0) <= Blocks(h)
  {}

  lemma RenewedEntry(h0: Heap, hb: Heap, w: u32, o: TSlot, w': u32, e: TSlot)
    requires EntryAt(h0, w, o) && Renewed(h0, hb, w, o, w', e)
    ensures EntryAt(hb, w, o) && EntryAt(hb, w', e) && SlotShares(e, o, Blocks(h0))
    ensures (e.TKid? ==> NB(w') !in Blocks(h0))
    ensures EntryB(w, o) <= Blocks(h0)
  {
    hide EntryAt, SlotShares, Grows, EntryB, Blocks;
    EntryGrows(h0, hb, w, o);
    EntryBlocks(h0, w, o);
  }

  /** A fresh block for one node structure. */
  lemma OneBlock(p: Poptrie, h: Heap, a: nat, nd: PNode)
    requires p.Mem() && p.H() == h.(ln := h.ln[a := 0]) && a !in h.ln
    ensures a + 1 <= p.nodes.Length && a < LEAF_TAG
    ensures a in p.H().ln && 1 <= Pow2(p.H().ln[a]) && Blocks(h) <= Blocks(p.H()) - {NB(a)}
    ensures var hb := p.H().(N := Write(p.H().N, a, [nd]));
            Grows(h, hb) && Blocks(hb) == Blocks(h) + {NB(a)} && NB(a) !in Blocks(h) && a < |hb.N| && hb.N[a] == nd
  {
    hide Poptrie.Mem, Grows, Arena, Write;
    p.MemHeap();
    FillN(h, a, 0, [nd]);
    InBlocks(h, NB(a));
    var hb := p.H().(N := Write(p.H().N, a, [nd]));
    assert hb.N[a..a + 1][0] == nd;
  }

  /** _update_part at the root of an entry: build the block anew and install it. */
  method PartRoot(p: Poptrie, v: RView, inode: int, d: array<u32>, i: nat, alt: bool, ghost o: TSlot,
                  ghost sl: Shape, ghost sr: Shape, ghost dep: nat, ghost c: Cur, ghost W: set<object>)
    returns (ok: bool, ghost e: TSlot, ghost hb: Heap, ghost sw: nat)
    requires p.Mem() && i < d.Length && EntryAt(p.H(), d[i], o) && inode == (if o.TKid? then d[i] as int else -1)
    requires d !in p.Foot() && p !in p.Foot() && d == (if alt then p.altdir else p.dir)
    requires W !! p.Foot() && p !in W && Sees(v, sl, sr, dep, c, W)
    modifies p.Foot(), d, p`root, p`trace
    ensures p.Mem()
    ensures !ok ==> Grows(old(p.H()), p.H()) && p.Fails() > old(p.Fails()) && d[..] == old(d[..])
    ensures ok ==>
      && p.Fails() == old(p.Fails()) && d[..] == old(d[..])[i := d[i]]
      && StripSlot(e) == Compress(Rebuild(StripSlot(o), c))
      && Renewed(old(p.H()), hb, old(d[i]), o, d[i], e)
      && Drops(hb, p.H(), if alt then {} else EntryB(old(d[i]), o) - EntryB(d[i], e))
    ensures !ok || alt ==> Quiet(old(p.trace), p.trace, Blocks(old(p.H())), Need(c) + 1)
    ensures ok && !alt ==>
      Handed(old(p.trace), p.trace, sw, hb, hb, d[..], EntryB(old(d[i]), o) - EntryB(d[i], e), Need(c) + 1)
  {
    hide Poptrie.Mem, Poptrie.Fails, Poptrie.Foot, Drops, SlotShares, EntryAt, Renewed, EntryB, SlotBuilt, Grows,
         Blocks, Quiet, Handed, Need,
         Rebuild, Degenerate, Strip, Anchored, Sees;
    p.FootHeld();
    p.MemTrace();
    ghost var h0, t0 := p.H(), p.trace;
    hb, sw := h0, 0;
    var oroot := d[i];
    EntryAnchored(h0, oroot, o);
    var ret, cnode, sleaf;
    ghost var t;
    ret, cnode, sleaf, t := UpdateInode(p, v, inode, o, sl, sr, dep, c, W);
    e := TKid(t);
    ok := ret >= 0;
    QuietLess(t0, p.trace, Blocks(h0), Need(c), Blocks(h0), Need(c) + 1);
    if ret < 0 { return; }
    ghost var h, th := p.H(), p.trace;
    if ret > 0 {
      SingleLeaf(h0, h, o, t, sleaf);
      p.FreeLeaves(cnode.base0);
      BuildOn(t0, th, p.trace, Blocks(h0), Blocks(h) - {LB(cnode.base0)}, Need(c) + 1, 0);
      e, hb := TLeaf(sleaf), p.H();
      sw := InstallLeaf(p, sleaf, d, i, alt, h0, t0, o, Need(c) + 1);
    } else {
      BuiltMore(h0, h, o, TKid(t));
      p.MemTrace();
      ok, hb, sw := InstallRoot(p, cnode, d, i, alt, h0, o, t);
      if !ok || alt {
        BuildOn(t0, th, p.trace, Blocks(h0), Blocks(h), Need(c), 1);
      } else {
        BuildThenHand(t0, th, p.trace, sw, hb, hb, d[..], EntryB(oroot, o) - EntryB(d[i], e), Need(c), 1);
      }
    }
  }

  lemma EntryAnchored(h: Heap, w: u32, o: TSlot)
    requires EntryAt(h, w, o)
    ensures Anchored(h, if o.TKid? then w else -1, o)
  {
    if o.TKid? { assert w in h.ln && w <= w < w + Pow2(h.ln[w]); }
  }
}
