/** _update_subtree: bring the fast form up to date after one route has changed in the radix tree. */
module Subtree {
  import opened Bits
  import opened BuddyModel
  import opened Rib
  import opened Trie
  import opened TrieUpdate
  import opened Overlook
  import opened Radix
  import opened Triangle
  import opened Store
  import opened Sharing
  import opened Trace
  import opened Cost
  import opened PoptrieState
  import opened Build
  import opened Clean
  import opened Entries
  import opened Part
  import opened Descent
  import opened FibTable
  import opened Direct

  /** The root of the shown tree is the position before the first address bit. */
  lemma RootSees(sh: Shape, r: Rib)
    requires sh.Fork? && Shows(sh, null, 0, r)
    ensures Sees(Copy(sh.o), sh.l, sh.r, 0, Enter(r, 0), Objs(sh)) && sh.o in Objs(sh) && Linked(sh) && r.Node?
  {
    ShowsParts(sh, null, 0, r);
  }

  /** _update_dp1: the walk down to the updated radix node.  The node exists, so that the loops
      for a missing child never run. */
  method FindUpdated(tnode: RadixNode, prefix: u32, len: nat, depth: nat, ghost sh: Shape,
                     ghost mode: Mode, ghost c0: Cur, ghost c1: Cur, ghost route: Option<u16>, ghost W: set<object>)
    returns (node: RadixNode, ghost s: Shape)
    requires depth <= len <= 32 && sh.Fork? && tnode == sh.o && tnode in W
    requires Sees(Copy(tnode), sh.l, sh.r, depth, c1, W)
    requires Toward(mode, c0, c1, Top(prefix, len), len - depth, route)
    ensures s.Fork? && node == s.o && node in W
    ensures Sees(Copy(node), s.l, s.r, len, SubN(c1, Top(prefix, len), len - depth), W)
    decreases len - depth
  {
    hide Sees, Top, Objs;
    if depth == len {
      return tnode, sh;
    }
    ghost var b := Bit(Top(prefix, len), len - depth - 1);
    TopAt32(prefix);
    PathBit(prefix, len, depth);
    TowardDown(mode, c0, c1, Top(prefix, len), len - depth, route, b);
    SubNHead(c1, Top(prefix, len), len - depth - 1);
    SeesObjs(Copy(tnode), sh.l, sh.r, depth, c1, W);
    SeesDown(Copy(tnode), sh.l, sh.r, depth, c1, W, b);
    if BitAt(prefix, depth) {
      assert tnode.right != null;
      node, s := FindUpdated(tnode.right, prefix, len, depth + 1, sh.r, mode, Down(c0, b), Down(c1, b), route, W);
    } else {
      assert tnode.left != null;
      node, s := FindUpdated(tnode.left, prefix, len, depth + 1, sh.l, mode, Down(c0, b), Down(c1, b), route, W);
    }
  }

  /** The entries under the prefix, or the one entry that the prefix goes through. */
  predicate Covered(prefix: u32, len: nat, i: nat) {
    if len <= 18 then Lo(prefix, len) <= i < Lo(prefix, len) + Pow2(18 - len) else i == Top(prefix, 18)
  }

  /** Exactly the covered entries have been refreshed. */
  ghost predicate Refreshed(es: seq<TSlot>, es': seq<TSlot>, root: Cur, prefix: u32, len: nat)
    requires len <= 32
  {
    |es| == |es'| == DIRS && forall i :: 0 <= i < DIRS ==>
      StripSlot(es'[i]) == if Covered(prefix, len, i) then UpdateEntry(StripSlot(es[i]), SubN(root, i, 18), prefix, len)
                           else StripSlot(es[i])
  }

  /** The fast form before or after an update. */
  ghost predicate Table(p: Poptrie, es: seq<TSlot>, own: map<Blk, nat>)
    reads p`trace, p`dir, p`altdir, p.Foot(), p.dir
  {
    && p.Mem() && p.Apart() && p.dir.Length == DIRS && p.altdir.Length == DIRS
    && Fib(p.H(), p.dir[..], es, own)
  }

  /** The loop over the swapped range: clean the entries that changed. */
  method CleanRange(p: Poptrie, lo: nat, n: nat, ghost o: Before, ghost ns: seq<TSlot>, ghost nown: map<Blk, nat>)
    requires p.Mem() && p.Apart() && p.dir.Length == DIRS && p.altdir.Length == DIRS && lo + n <= DIRS
    requires Drafted(o, p.H(), p.dir[..], ns, nown) && p.altdir[..] == o.ds
    modifies p.Foot(), p`trace
    ensures p.Mem() && p.Fails() == old(p.Fails()) && |ns| == DIRS
    ensures Drops(old(p.H()), p.H(), Retired(o.own, p.dir[..], ns, lo, lo + n))
    ensures Quiet(old(p.trace), p.trace, Blocks(old(p.H())) - Retired(o.own, p.dir[..], ns, lo, lo + n), 0)
  {
    hide Drafted, Poptrie.Mem, Poptrie.Fails, Poptrie.Foot, Drops, EntryAt, EntryB, SlotShares, Retired, Quiet, Blocks;
    p.FootHeld();
    ghost var hA, tA := p.H(), p.trace;
    ghost var ds := p.dir[..];
    DraftEntryAt(o, hA, ds, ns, nown, 0);
    CleanNothing(p);
    RetiredNone(o.own, ds, ns, lo);
    var i := 0;
    while i < n
      invariant 0 <= i <= n && p.Mem() && p.Fails() == old(p.Fails())
      invariant Drops(hA, p.H(), Retired(o.own, ds, ns, lo, lo + i))
      invariant Quiet(tA, p.trace, Blocks(hA) - Retired(o.own, ds, ns, lo, lo + i), 0)
    {
      ghost var h, t := p.H(), p.trace;
      var w', w := p.dir[lo + i], p.altdir[lo + i];
      BothIntact(o, hA, h, ds, ns, nown, lo, lo + i);
      RetiredStep(o, hA, ds, ns, nown, lo, lo + i);
      ghost var F := EntryB(o.ds[lo + i], o.es[lo + i]) - EntryB(ds[lo + i], ns[lo + i]);
      if w' != w {
        CleanEntry(p, w', w, o.h, o.es[lo + i], ns[lo + i]);
      } else {
        NothingRetired(o, h, w, o.es[lo + i], ns[lo + i]);
        CleanNothing(p);
      }
      DropsTwice(hA, h, p.H(), Retired(o.own, ds, ns, lo, lo + i), F);
      CleanOn(tA, t, p.trace, hA, h, Retired(o.own, ds, ns, lo, lo + i), F);
      i := i + 1;
    }
  }

  lemma RetiredNone(own: map<Blk, nat>, ds': seq<u32>, ns: seq<TSlot>, lo: nat)
    requires lo <= |ds'| == |ns|
    ensures Retired(own, ds', ns, lo, lo) == {}
  {}

  /** An entry that reads the same before and after owns the same. */
  lemma NothingRetired(o: Before, h: Heap, w: u32, x: TSlot, e: TSlot)
    requires EntryAt(o.h, w, x) && EntryAt(h, w, x) && EntryAt(h, w, e)
    requires x == e || (e.TKid? ==> NB(w) !in Blocks(o.h))
    ensures EntryB(w, x) - EntryB(w, e) == {}
  {
    hide Rep, Lin, B;
    if x.TKid? { InBlocks(o.h, NB(w)); }
  }

  lemma RenewalIsRefresh(o: Slot, root: Cur, i: nat, prefix: u32, len: nat)
    requires len <= 24
    ensures Renewal(o, root, i) == UpdateEntry(o, SubN(root, i, 18), prefix, len)
  {
    ShortSeen(o, SubN(root, i, 18), prefix, len);
  }

  lemma RangeRefreshed(o: Before, ds': seq<u32>, ns: seq<TSlot>, root: Cur, prefix: u32, len: nat)
    requires len <= 18 && |o.es| == |o.ds| == DIRS
    requires SameBeside(o.ds, o.es, ds', ns, Lo(prefix, len), Lo(prefix, len) + Pow2(18 - len))
    requires Renewed18(o, ns, root, Lo(prefix, len), Lo(prefix, len) + Pow2(18 - len))
    ensures Refreshed(o.es, ns, root, prefix, len)
  {
    hide Renewal, StripSlot, UpdateEntry, Lo, SubN;
    forall i | 0 <= i < DIRS
      ensures StripSlot(ns[i]) == if Covered(prefix, len, i)
          then UpdateEntry(StripSlot(o.es[i]), SubN(root, i, 18), prefix, len)
                                  else StripSlot(o.es[i])
    {
      RenewalIsRefresh(StripSlot(o.es[i]), root, i, prefix, len);
    }
  }

  lemma DraftPending(o: Before, lo: nat, hi: nat)
    requires Fib(o.h, o.ds, o.es, o.own)
    ensures Pending(o, o.ds, o.es, lo, hi)
  {}

  lemma DraftOld(o: Before, h: Heap, ds': seq<u32>, ns: seq<TSlot>, nown: map<Blk, nat>)
    requires Drafted(o, h, ds', ns, nown)
    ensures |o.ds| == |o.es| == |ns| == |ds'| == DIRS
  {
    DraftEntry(o, h, ds', ns, nown, 0);
  }

  /** The radix tree has no nodes in the right half of the prefix. */
  predicate RightEmpty(r: Rib, prefix: u32, len: nat)
    requires len <= 32
  {
    Child(At(r, Top(prefix, len), len), true).Nil?
  }

  lemma RightIsEmpty(node: RadixNode, s: Shape, r: Rib, prefix: u32, len: nat, W: set<object>)
    requires len <= 32 && s.Fork? && Sees(Copy(node), s.l, s.r, len, SubN(Enter(r, 0), Top(prefix, len), len), W)
    ensures RightEmpty(r, prefix, len) <==> s.r.Empty?
  {
    hide Sees, SubN, Top, At;
    SubNAt(r, 0, Top(prefix, len), len);
    SeesDown(Copy(node), s.l, s.r, len, SubN(Enter(r, 0), Top(prefix, len), len), W, true);
  }

  /** The range under the prefix, rebuilt in the alternative array. */
  method DraftRange(p: Poptrie, prefix: u32, len: nat, ghost o: Before, ghost sh: Shape,
                    ghost r1: Rib, ghost mode: Mode, ghost c0: Cur, ghost route: Option<u16>)
    returns (ok: bool, ghost ns: seq<TSlot>, ghost nown: map<Blk, nat>)
    requires Table(p, o.es, o.own) && o.h == p.H() && o.ds == p.dir[..] && len < 18 && Canonical(prefix, len)
    requires sh.Fork? && p.radix == sh.o && Shows(sh, null, 0, r1) && Clear(p, Objs(sh))
    requires Toward(mode, c0, Enter(r1, 0), Top(prefix, len), len, route)
    modifies p`root, p`trace, p.Foot(), p.altdir
    ensures Drafting(p, o, ns, nown) && p.Fails() >= old(p.Fails()) && (!ok ==> p.Fails() > old(p.Fails()))
    ensures SameBeside(o.ds, o.es, p.altdir[..], ns, Lo(prefix, len), Lo(prefix, len) + Pow2(18 - len))
    ensures p.Fails() == old(p.Fails()) ==>
        Renewed18(o, ns, Enter(r1, 0), Lo(prefix, len), Lo(prefix, len) + Pow2(18 - len))
    ensures p.Fails() == old(p.Fails()) ==> DraftExact(o, p.H(), nown)
    ensures RightEmpty(r1, prefix, len) ==> ok
    ensures Quiet(old(p.trace), p.trace, Blocks(old(p.H())), DraftNeed(Enter(r1, 0)))
  {
    hide Drafted, Poptrie.Mem, Poptrie.Fails, Poptrie.Foot, Fib, Shows, Sees, Objs, Toward, Top,
         Pow2, Canonical, Renewed18, SameBeside, DraftExact, Pending, Lo, Quiet, DraftNeed, Blocks, RightEmpty;
    p.FootHeld();
    RootSees(sh, r1);
    ghost var W: set<object> := Objs(sh);
    forall i | 0 <= i < DIRS { p.altdir[i] := p.dir[i]; }
    assert p.altdir[..] == o.ds;
    DraftStart(o);
    DraftPending(o, Lo(prefix, len), Lo(prefix, len) + Pow2(18 - len));
    var node;
    ghost var s;
    node, s := FindUpdated(p.radix, prefix, len, 0, sh, mode, c0, Enter(r1, 0), route, W);
    RightIsEmpty(node, s, r1, prefix, len, W);
    ok, ns, nown := UpdateDp2(p, node, prefix, len, s, o, o.es, map[], Enter(r1, 0), W);
    DraftNeedBelow(Enter(r1, 0), Top(prefix, len), len);
    QuietLess(old(p.trace), p.trace, Blocks(o.h), DraftNeed(SubN(Enter(r1, 0), Top(prefix, len), len)), Blocks(o.h),
              DraftNeed(Enter(r1, 0)));
  }

  /** A prefix shorter than the direct index: draft the range in the alternative array, exchange
      the arrays, and clean the old range. */
  method UpdateShort(p: Poptrie, prefix: u32, len: nat, ghost es: seq<TSlot>, ghost own: map<Blk, nat>, ghost sh: Shape,
                     ghost r1: Rib, ghost mode: Mode, ghost c0: Cur, ghost route: Option<u16>)
    returns (ok: bool, ghost es': seq<TSlot>, ghost own': map<Blk, nat>, ghost sw: nat)
    requires Table(p, es, own) && len < 18 && Canonical(prefix, len)
    requires sh.Fork? && p.radix == sh.o && Shows(sh, null, 0, r1) && Clear(p, Objs(sh))
    requires Toward(mode, c0, Enter(r1, 0), Top(prefix, len), len, route)
    modifies p`root, p`dir, p`altdir, p`trace, p.Foot(), p.dir, p.altdir
    ensures Table(p, es', own') && p.dir == old(p.altdir) && p.altdir == old(p.dir)
    ensures p.Fails() >= old(p.Fails()) && (!ok ==> p.Fails() > old(p.Fails()))
    ensures RightEmpty(r1, prefix, len) ==> ok
    ensures Switchover(old(p.trace), p.trace, sw, old(p.dir[..]), es, p.dir[..], es')
    ensures Spends(old(p.trace), p.trace, DraftNeed(Enter(r1, 0)))
    ensures p.Fails() == old(p.Fails()) ==>
      && Refreshed(es, es', Enter(r1, 0), prefix, len)
      && Drops(SwitchAt(p.trace, sw).h, p.H(), own.Keys - own'.Keys)
      && (Blocks(old(p.H())) == own.Keys ==> Blocks(p.H()) == own'.Keys)
  {
    hide Drafted, Poptrie.Mem, Poptrie.Fails, Poptrie.Foot, Drops, EntryAt, EntryB, SlotShares, Retired, Fib, Shows,
         Sees, Objs, Toward, Top, Quiet, Handed, Switchover, DraftNeed, RightEmpty,
         Pow2, Canonical, Renewed18, SameBeside, Merged, DraftExact, Refreshed, Pending, Blocks, Lo;
    p.FootHeld();
    p.MemTrace();
    ghost var t0 := p.trace;
    ghost var root := Enter(r1, 0);
    ghost var o := Before(p.H(), p.dir[..], es, own);
    ghost var lo, n := Lo(prefix, len), Pow2(18 - len);
    ghost var ns, nown;
    ok, ns, nown := DraftRange(p, prefix, len, o, sh, r1, mode, c0, route);
    LoBound(prefix, len);
    ghost var hb, tb := p.H(), p.trace;
    p.MemTrace();
    p.Exchange();
    DraftOld(o, hb, p.dir[..], ns, nown);
    var idx := FirstIndex(prefix, len);
    CleanRange(p, idx, Pow2(18 - len), o, ns, nown);
    Beside(o, p.dir[..], ns, lo, lo + n);
    DraftDone(o, hb, p.H(), p.dir[..], ns, nown, lo, lo + n);
    MergedDrops(o, hb, p.dir[..], ns, nown, lo, lo + n);
    sw := |tb|;
    ghost var F := Retired(own, p.dir[..], ns, lo, lo + n);
    HandOver(t0, tb, Last(tb).(ds := p.dir[..]), p.trace, F, DraftNeed(root));
    HandedEnd(t0, p.trace, sw, hb, hb, p.dir[..], F, DraftNeed(root));
    DraftSwitchover(o, t0, p.trace, sw, hb, p.dir[..], ns, nown, lo, lo + n, DraftNeed(root));
    es', own' := ns, Merged(own, nown, Retired(own, p.dir[..], ns, lo, lo + n));
    if p.Fails() == old(p.Fails()) {
      RangeRefreshed(o, p.dir[..], ns, root, prefix, len);
    }
  }

  lemma Beside(o: Before, ds': seq<u32>, ns: seq<TSlot>, lo: nat, hi: nat)
    requires SameBeside(o.ds, o.es, ds', ns, lo, hi)
    ensures forall i :: 0 <= i < DIRS && !(lo <= i < hi) ==> ds'[i] == o.ds[i] && ns[i] == o.es[i]
  {}

  lemma OneRefreshed(es: seq<TSlot>, i: nat, e: TSlot, root: Cur, prefix: u32, len: nat)
    requires |es| == DIRS && 18 <= len <= 32 && i == Top(prefix, 18) < DIRS
    requires StripSlot(e) == UpdateEntry(StripSlot(es[i]), SubN(root, i, 18), prefix, len)
    ensures Refreshed(es, es[i := e], root, prefix, len)
  {
    hide StripSlot, UpdateEntry, SubN, Top;
    Pow2Zero();
    assert forall j :: Covered(prefix, len, j) <==> j == i;
  }

  /** One entry has been switched: the whole table is up to date. */
  lemma OneSwitched(h0: Heap, hb: Heap, ha: Heap, h: Heap, ds: seq<u32>, es: seq<TSlot>, own: map<Blk, nat>,
                    i: nat, w': u32, e: TSlot, root: Cur, prefix: u32, len: nat)
    requires Fib(h0, ds, es, own) && i < DIRS && Switched(h0, hb, ha, h, ds[i], es[i], w', e)
    requires 18 <= len <= 32 && i == Top(prefix, 18)
    requires StripSlot(e) == UpdateEntry(StripSlot(es[i]), SubN(root, i, 18), prefix, len)
    ensures var es', own' := es[i := e], Reowned(own, i, EntryB(ds[i], es[i]), EntryB(w', e));
      && Fib(h, ds[i := w'], es', own') && Refreshed(es, es', root, prefix, len)
      && Drops(ha, h, own.Keys - own'.Keys)
      && (Blocks(h0) == own.Keys ==> Blocks(h) == own'.Keys)
  {
    hide Switched, EntryB, StripSlot, UpdateEntry, SubN, Top;
    FibSwitch(h0, hb, ha, h, ds, es, own, i, w', e);
    ReownedDrops(h0, hb, ha, h, ds, es, own, i, w', e);
    OneRefreshed(es, i, e, root, prefix, len);
  }

  /** The entry that the prefix goes through: at depth 18 its root is rebuilt, below it the update
      descends. */
  method SwitchOne(p: Poptrie, prefix: u32, len: nat, idx: nat, ghost x: TSlot, ghost sh: Shape,
                   ghost r1: Rib, ghost mode: Mode, ghost c0: Cur, ghost route: Option<u16>)
    returns (ok: bool, ghost e: TSlot, ghost hb: Heap, ghost ha: Heap, ghost sw: nat)
    requires p.Mem() && p.Apart() && p.dir.Length == DIRS && 18 <= len <= 32
    requires idx == Chunk(prefix, 0, 18) == Top(prefix, 18) < DIRS
    requires EntryAt(p.H(), p.dir[idx], x)
    requires sh.Fork? && p.radix == sh.o && Shows(sh, null, 0, r1) && Clear(p, Objs(sh))
    requires Toward(mode, c0, Enter(r1, 0), Top(prefix, len), len, route)
    modifies p`root, p`trace, p.Foot(), p.dir
    ensures p.Mem()
    ensures !ok ==> Grows(old(p.H()), p.H()) && p.Fails() > old(p.Fails()) && p.dir[..] == old(p.dir[..])
    ensures ok ==>
      && p.Fails() == old(p.Fails()) && p.dir[..] == old(p.dir[..])[idx := p.dir[idx]]
      && StripSlot(e) == UpdateEntry(StripSlot(x), SubN(Enter(r1, 0), idx, 18), prefix, len)
      && Switched(old(p.H()), hb, ha, p.H(), old(p.dir[idx]), x, p.dir[idx], e)
    ensures !ok ==> Quiet(old(p.trace), p.trace, Blocks(old(p.H())), 2 * Posts(Enter(r1, 0)) + 11)
    ensures ok ==> Handed(old(p.trace), p.trace, sw, hb, ha, p.dir[..],
                          EntryB(old(p.dir[idx]), x) - EntryB(p.dir[idx], e), 2 * Posts(Enter(r1, 0)) + 11)
  {
    hide Poptrie.Mem, Poptrie.Fails, Poptrie.Foot, EntryAt, Shows, Sees, Objs, Toward, Top, Chunk, Missed, Lost,
         Traced, BottomAt, StripSlot, SubN, Switched, PatchUp, Grows, UpdateEntry, Target, Rebuild, Degenerate,
         Quiet, Handed, EntryB, Blocks, Posts, Need;
    ghost var t0, h0 := p.trace, p.H();
    p.FootHeld();
    RootSees(sh, r1);
    ghost var root := Enter(r1, 0);
    ghost var W: set<object> := Objs(sh);
    EntryTraced(p.H(), p.dir[idx], x);
    EntryKind(p.H(), p.dir[idx], x);
    EntryPatch(x, SubN(root, idx, 18), prefix, len);
    var inode := if p.dir[idx] >= LEAF_TAG then -1 else p.dir[idx];
    if len == 18 {
      var node;
      ghost var s;
      node, s := FindUpdated(p.radix, prefix, len, 0, sh, mode, c0, root, route, W);
      ok, e, hb, ha, sw := UpdatePart(p, Copy(node), inode, [Frame(-1, -1)], p.dir, idx, false, [x], s.l, s.r, 18,
                                      SubN(root, idx, 18), W);
      NeedPosts(SubN(root, idx, 18));
      SubPosts(root, idx, 18);
      AtMost(t0, p.trace, Blocks(h0), sw, hb, ha, p.dir[..], EntryB(old(p.dir[idx]), x) - EntryB(p.dir[idx], e),
             Need(SubN(root, idx, 18)) + 5, 2 * Posts(root) + 11, ok);
    } else {
      NextBlockSees(sh, Copy(p.radix), sh.l, sh.r, 0, root, W, idx, 0, 18);
      FirstBlock(mode, c0, root, prefix, len, route);
      var ntnode := NextBlock(p.radix, idx, 0, 18, sh);
      ok, e, hb, ha, sw := DescendAndUpdate(p, ntnode, inode, [Frame(-1, -1)], prefix, len, 18, p.dir, idx, [x],
                                            NextShape(sh, idx, 18), mode, SubN(c0, idx, 18), SubN(root, idx, 18),
                                            route, W);
      SubPosts(root, idx, 18);
      AtMost(t0, p.trace, Blocks(h0), sw, hb, ha, p.dir[..], EntryB(old(p.dir[idx]), x) - EntryB(p.dir[idx], e),
             2 * Posts(SubN(root, idx, 18)) + 11, 2 * Posts(root) + 11, ok);
    }
  }

  /** A prefix that ends at or below one direct entry: update that entry. */
  method UpdateOne(p: Poptrie, prefix: u32, len: nat, ghost es: seq<TSlot>, ghost own: map<Blk, nat>, ghost sh: Shape,
                   ghost r1: Rib, ghost mode: Mode, ghost c0: Cur, ghost route: Option<u16>)
    returns (ok: bool, ghost es': seq<TSlot>, ghost own': map<Blk, nat>, ghost sw: nat)
    requires Table(p, es, own) && 18 <= len <= 32
    requires sh.Fork? && p.radix == sh.o && Shows(sh, null, 0, r1) && Clear(p, Objs(sh))
    requires Toward(mode, c0, Enter(r1, 0), Top(prefix, len), len, route)
    modifies p`root, p`trace, p.Foot(), p.dir
    ensures Table(p, es', own')
    ensures p.Fails() >= old(p.Fails()) && (ok <==> p.Fails() == old(p.Fails()))
    ensures Switchover(old(p.trace), p.trace, sw, old(p.dir[..]), es, p.dir[..], es')
    ensures Spends(old(p.trace), p.trace, 2 * Posts(Enter(r1, 0)) + 11)
    ensures p.Fails() == old(p.Fails()) ==>
      && Refreshed(es, es', Enter(r1, 0), prefix, len)
      && Drops(SwitchAt(p.trace, sw).h, p.H(), own.Keys - own'.Keys)
      && (Blocks(old(p.H())) == own.Keys ==> Blocks(p.H()) == own'.Keys)
  {
    hide Poptrie.Mem, Poptrie.Fails, Poptrie.Foot, Drops, EntryAt, EntryB, Fib, Shows, Sees, Objs, Toward, Top, Chunk,
         Switchover, Handed, Quiet, Posts,
         Refreshed, Blocks, Traced, BottomAt, StripSlot, SubN, Switched, PatchUp, Grows, UpdateEntry;
    p.FootHeld();
    p.MemTrace();
    ghost var t0 := p.trace;
    ghost var h0, ds, root := p.H(), p.dir[..], Enter(r1, 0);
    es', own' := es, own;
    FibSize(h0, ds, es, own);
    Index18(prefix);
    var idx := Chunk(prefix, 0, 18);
    FibEntry(h0, ds, es, own, idx);
    ghost var e, hb, ha;
    ok, e, hb, ha, sw := SwitchOne(p, prefix, len, idx, es[idx], sh, r1, mode, c0, route);
    ghost var F := EntryB(ds[idx], es[idx]) - EntryB(p.dir[idx], e);
    if ok {
      HandedEnd(t0, p.trace, sw, hb, ha, p.dir[..], F, 2 * Posts(root) + 11);
      EntrySwitchover(t0, p.trace, sw, hb, ha, p.H(), 2 * Posts(root) + 11, ds, es, own, idx, p.dir[idx], e);
      OneSwitched(h0, hb, ha, p.H(), ds, es, own, idx, p.dir[idx], e, root, prefix, len);
      es', own' := es[idx := e], Reowned(own, idx, EntryB(ds[idx], es[idx]), EntryB(p.dir[idx], e));
    } else {
      sw := |p.trace|;
      NoSwitch(t0, p.trace, 2 * Posts(root) + 11, ds, es, own);
      QuietAsked(t0, p.trace, Blocks(h0), 2 * Posts(root) + 11);
      FibGrows(h0, p.H(), ds, es, own);
    }
  }

  /** At the root of an entry the path is empty. */
  lemma EntryPatch(x: TSlot, c: Cur, prefix: u32, len: nat)
    requires 18 <= len <= 32
    ensures UpdateEntry(StripSlot(x), c, prefix, len) ==
            if Lost([x], [Frame(-1, -1)], c, prefix, len, 18) then StripSlot(x)
            else PatchUp([x], [Frame(-1, -1)], 0, Target(StripSlot(x), c, prefix, len, 18, true))
    ensures len == 18 ==>
      !Missed([x], [Frame(-1, -1)], 0, Compress(Rebuild(StripSlot(x), c)))
      && UpdateEntry(StripSlot(x), c, prefix, len) ==
        PatchUp([x], [Frame(-1, -1)], 0, Compress(Rebuild(StripSlot(x), c)))
  {
    hide Rebuild, Compress, Refresh;
    StripKinds(x);
    if len <= 24 { ShortSeen(StripSlot(x), c, prefix, len); }
  }

  /** The updated route lies below the direct entry. */
  lemma FirstBlock(mode: Mode, c0: Cur, root: Cur, prefix: u32, len: nat, route: Option<u16>)
    requires 18 < len <= 32 && Toward(mode, c0, root, Top(prefix, len), len, route)
    ensures var idx := Chunk(prefix, 0, 18);
      && Toward(mode, SubN(c0, idx, 18), SubN(root, idx, 18), Top(prefix, len), len - 18, route)
      && !IsLeaf(SubN(root, idx, 18))
  {
    hide Chunk, SubN, Toward, Top, Pow2;
    Index18(prefix);
    Pow2At18();
    var idx := Chunk(prefix, 0, 18);
    ChunkOnPath(prefix, len, 0, 18, idx);
    TowardSub(mode, c0, root, Top(prefix, len), len, route, idx, 18);
    TowardNotLeaf(mode, SubN(c0, idx, 18), SubN(root, idx, 18), Top(prefix, len), len - 18, route);
  }
}
