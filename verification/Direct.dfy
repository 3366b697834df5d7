/** The update of the direct-pointing array: _update_dp1, _update_dp2 and _update_subtree. */
module Direct {
  import opened Arith
  import opened Bits
  import opened BuddyModel
  import opened Rib
  import opened Trie
  import opened TrieUpdate
  import opened Neatness
  import opened Radix
  import opened Triangle
  import opened Store
  import opened Sharing
  import opened Trace
  import opened Cost
  import opened PoptrieState
  import opened Build
  import opened Clean
  import opened Entries
  import opened Part
  import opened Descent
  import opened FibTable

  // ----- prefixes and index ranges

  /** The host bits of the prefix are zero. */
  predicate Canonical(prefix: u32, len: nat) {
    forall k :: 0 <= k < 32 - len ==> !Bit(prefix, k)
  }

  /** The first entry under the d leading bits of the prefix, and the number of entries. */
  function Lo(prefix: u32, d: nat): nat
    requires d <= 18
  {
    Top(prefix, d) * Pow2(18 - d)
  }

  /** INDEX(prefix, 0, POPTRIE_S) >> (POPTRIE_S - d) << (POPTRIE_S - d) */
  function FirstIndex(prefix: u32, d: nat): (r: nat)
    requires d <= 18
    ensures r == Lo(prefix, d)
  {
    FirstIndexIsLo(prefix, d);
    Shr(Chunk(prefix, 0, 18), 18 - d) * Pow2(18 - d)
  }

  lemma FirstIndexIsLo(prefix: u32, d: nat)
    requires d <= 18
    ensures Shr(Chunk(prefix, 0, 18), 18 - d) == Top(prefix, d)
  {
    Index18(prefix);
    ShrShr(prefix * 0x1_0000_0000, 46, 18 - d);
  }

  lemma Index18(prefix: u32)
    ensures Chunk(prefix, 0, 18) == Top(prefix, 18) < DIRS
  {
    hide Pow2;
    Pow2At18();
    TopAt32(prefix);
    TopStep(prefix, 0, 18);
  }

  lemma Pow2At18()
    ensures Pow2(18) == DIRS && Pow2(0) == 1
  {
    hide Pow2;
    Pow2At64();
    Pow2Zero();
    Doubling(16);
    Doubling(17);
  }

  lemma LoBound(prefix: u32, d: nat)
    requires d <= 18
    ensures Lo(prefix, d) + Pow2(18 - d) <= DIRS
  {
    hide Pow2, Top;
    Pow2At18();
    TopBound(prefix, d);
    PowersAdd(d, 18 - d);
    MulMonotone(Top(prefix, d) + 1, Pow2(d), Pow2(18 - d));
    Distribute(Top(prefix, d) + 1, 1, Pow2(18 - d));
  }

  lemma NextBit(a: u32, d: nat)
    requires d < 32
    ensures Top(a, d + 1) == 2 * Top(a, d) + (if Bit(a, 31 - d) then 1 else 0)
  {
    hide Shr;
    TopAt32(a);
    ShrStep(a, 31 - d);
  }

  /** The prefix of the left half: the next bit is a host bit. */
  lemma GoLeft(prefix: u32, d: nat)
    requires d < 18 && Canonical(prefix, d)
    ensures Canonical(prefix, d + 1) && Top(prefix, d + 1) == 2 * Top(prefix, d)
    ensures Lo(prefix, d + 1) == Lo(prefix, d)
  {
    hide Bit;
    NextBit(prefix, d);
    Halve(Top(prefix, d), d);
  }

  lemma Halve(j: nat, d: nat)
    requires d < 18
    ensures (2 * j) * Pow2(18 - (d + 1)) == j * Pow2(18 - d)
    ensures (2 * j + 1) * Pow2(18 - (d + 1)) == j * Pow2(18 - d) + Pow2(18 - (d + 1))
    ensures Pow2(18 - d) == 2 * Pow2(18 - (d + 1))
  {
    var p := Pow2(18 - (d + 1));
    Doubling(18 - (d + 1));
    hide Pow2;
    assert (2 * j) * p == j * (2 * p);
    assert (2 * j + 1) * p == (2 * j) * p + p;
  }

  /** prefix |= 1 << (32 - d - 1): the prefix of the right half. */
  function RightOf(prefix: u32, d: nat): (r: u32)
    requires d < 18
  {
    RightFits(prefix, d);
    Or(prefix, Pow2(31 - d))
  }

  lemma RightFits(prefix: u32, d: nat)
    requires d < 18
    ensures Or(prefix, Pow2(31 - d)) < 0x1_0000_0000
  {
    hide Pow2, Or;
    Pow2At64();
    Pow2Monotone(31 - d, 32);
    OrBound(prefix, Pow2(31 - d), 32);
  }

  lemma GoRight(prefix: u32, d: nat)
    requires d < 18 && Canonical(prefix, d)
    ensures Canonical(RightOf(prefix, d), d + 1) && Top(RightOf(prefix, d), d + 1) == 2 * Top(prefix, d) + 1
    ensures Lo(RightOf(prefix, d), d + 1) == Lo(prefix, d) + Pow2(18 - (d + 1))
  {
    hide Bit, Pow2, Or, Top;
    var a := RightOf(prefix, d);
    forall k ensures Bit(a, k) == (Bit(prefix, k) || k == 31 - d) {
      if k >= 0 { BitOfOr(prefix, Pow2(31 - d), k); BitOfPow2(31 - d, k); }
    }
    NextBit(a, d);
    SameTop(prefix, a, d);
    Halve(Top(prefix, d), d);
  }

  lemma SameTop(a: u32, b: u32, d: nat)
    requires d <= 32 && forall k :: 32 - d <= k ==> Bit(a, k) == Bit(b, k)
    ensures Top(a, d) == Top(b, d)
  {
    hide Bit, Pow2, Shr, Top;
    TopAt32(a);
    TopAt32(b);
    TopBound(a, d);
    TopBound(b, d);
    forall k | 0 <= k < d ensures Bit(Top(a, d), k) == Bit(Top(b, d), k) {
      BitOfShr(a, 32 - d, k);
      BitOfShr(b, 32 - d, k);
    }
    SameDigits(Top(a, d), Top(b, d), d);
  }

  /** Why host bits must be zero: a host bit sends both halves of an update to the right half. */
  lemma LeftHalfIff(prefix: u32, d: nat)
    requires d < 18
    ensures FirstIndex(prefix, d + 1) == FirstIndex(prefix, d) <==> !Bit(prefix, 31 - d)
    ensures Bit(prefix, 31 - d) ==> FirstIndex(prefix, d + 1) == FirstIndex(RightOf(prefix, d), d + 1)
  {
    hide Bit, Pow2, Or, Top;
    NextBit(prefix, d);
    Halve(Top(prefix, d), d);
    if Bit(prefix, 31 - d) {
      var a := RightOf(prefix, d);
      forall k: nat ensures Bit(a, k) == Bit(prefix, k) {
        BitOfOr(prefix, Pow2(31 - d), k);
        BitOfPow2(31 - d, k);
      }
      SameTop(prefix, a, d + 1);
    }
  }

  // ----- what a direct entry becomes

  function Renewal(o: Slot, root: Cur, i: nat): Slot {
    Compress(Rebuild(o, SubN(root, i, 18)))
  }

  /** Entries of the range still stand as before. */
  ghost predicate Pending(o: Before, ds': seq<u32>, ns: seq<TSlot>, lo: nat, hi: nat) {
    |ds'| == |ns| == |o.ds| == |o.es| == DIRS &&
    forall i :: lo <= i < hi && i < DIRS ==> ds'[i] == o.ds[i] && ns[i] == o.es[i]
  }

  ghost predicate SameBeside(ds0: seq<u32>, ns0: seq<TSlot>, ds1: seq<u32>, ns1: seq<TSlot>, lo: nat, hi: nat) {
    |ds0| == |ns0| == |ds1| == |ns1| == DIRS &&
    forall i :: 0 <= i < DIRS && !(lo <= i < hi) ==> ds1[i] == ds0[i] && ns1[i] == ns0[i]
  }

  /** Entries of the range have been rebuilt for the radix tree `root`. */
  ghost predicate Renewed18(o: Before, ns: seq<TSlot>, root: Cur, lo: nat, hi: nat) {
    |ns| == |o.es| == DIRS &&
    forall i :: lo <= i < hi && i < DIRS ==> StripSlot(ns[i]) == Renewal(StripSlot(o.es[i]), root, i)
  }

  /** Before the update, entries lo .. hi agreed with the radix tree c0, and the reuse test is right
      in each of them. */
  ghost predicate Renewable(mode: Mode, es: seq<TSlot>, c0: Cur, root: Cur, lo: nat, hi: nat, n: nat) {
    |es| == DIRS && forall i :: lo <= i < hi && i < DIRS ==>
      RenewableAt(mode, StripSlot(es[i]), SubN(c0, i, 18), SubN(root, i, 18), n)
  }

  ghost predicate RenewableAt(mode: Mode, o: Slot, c0: Cur, c1: Cur, n: nat) {
    && TracksEntry(o, c0) && NeatEntry(o, c0, n) && UnmarkedAt(c0) && SlotsSettled(mode, c0, c1)
    && ReuseOK(o, c0, c1) && CurExtends(c0, c1) && CurBelow(c1, n)
  }

  /** Entries lo .. hi are what building their radix blocks from scratch gives. */
  ghost predicate Built(es: seq<TSlot>, root: Cur, lo: nat, hi: nat) {
    |es| == DIRS && forall i :: lo <= i < hi && i < DIRS ==> StripSlot(es[i]) == Compress(Fresh(SubN(root, i, 18)))
  }

  ghost predicate BuiltWhenRight(o: Before, ns: seq<TSlot>, root: Cur, lo: nat, hi: nat) {
    forall mode: Mode, c0: Cur, n: nat :: Renewable(mode, o.es, c0, root, lo, hi, n) ==> Built(ns, root, lo, hi)
  }

  /** Rebuilding over sound old content is building from scratch. */
  lemma RenewedBuilt(mode: Mode, o: Before, ns: seq<TSlot>, c0: Cur, root: Cur, lo: nat, hi: nat, n: nat)
    requires Renewed18(o, ns, root, lo, hi) && Renewable(mode, o.es, c0, root, lo, hi, n)
    ensures Built(ns, root, lo, hi)
  {
    hide StripSlot, SubN, Rebuild, Compress, TracksEntry, NeatEntry, UnmarkedAt, SlotsSettled, ReuseOK, CurExtends,
         CurBelow, Fresh;
    forall i | lo <= i < hi && i < DIRS ensures StripSlot(ns[i]) == Compress(Fresh(SubN(root, i, 18))) {
      assert RenewableAt(mode, StripSlot(o.es[i]), SubN(c0, i, 18), SubN(root, i, 18), n);
      KidParts(StripSlot(o.es[i]), SubN(c0, i, 18), n);
      RebuildIsFresh(mode, StripSlot(o.es[i]), SubN(c0, i, 18), SubN(root, i, 18), n);
    }
  }

  lemma KidParts(s: Slot, c: Cur, n: nat)
    requires TracksEntry(s, c) && NeatEntry(s, c, n)
    ensures s.Kid? ==> Tracks(s.t, c) && NeatNode(s.t, c, n)
  {}

  /** The state while the alternative array is being filled. */
  ghost predicate Drafting(p: Poptrie, o: Before, ns: seq<TSlot>, nown: map<Blk, nat>)
    reads p`trace, p`dir, p`altdir, p.Foot(), p.dir, p.altdir
  {
    && p.Mem() && p.Apart() && p.dir.Length == DIRS && p.altdir.Length == DIRS && p.dir[..] == o.ds
    && Drafted(o, p.H(), p.altdir[..], ns, nown)
  }

  /** W holds radix nodes only: nothing that the update of the fast form writes. */
  ghost predicate Clear(p: Poptrie, W: set<object>)
    reads p`dir, p`altdir
  {
    W !! p.Foot() && p !in W && p.dir !in W && p.altdir !in W && p !in p.Foot()
  }

  /** The loop that fills a half without radix nodes. */
  method FillAlt(p: Poptrie, base: nat, n: nat, v: u16, ghost o: Before, ghost ns: seq<TSlot>, ghost nown: map<Blk,
          nat>)
    returns (ghost ns': seq<TSlot>)
    requires Drafting(p, o, ns, nown) && base + n <= DIRS && Pending(o, p.altdir[..], ns, base, base + n)
    modifies p.altdir
    ensures Drafting(p, o, ns', nown) && p.H() == old(p.H()) && p.Fails() == old(p.Fails())
    ensures SameBeside(old(p.altdir[..]), ns, p.altdir[..], ns', base, base + n)
    ensures forall i :: base <= i < base + n ==> ns'[i] == TLeaf(v)
  {
    hide Drafted, Poptrie.Mem, Poptrie.Foot;
    p.FootHeld();
    ns' := ns;
    var i := 0;
    while i < n
      invariant 0 <= i <= n && Drafting(p, o, ns', nown)
      invariant SameBeside(old(p.altdir[..]), ns, p.altdir[..], ns', base, base + i)
      invariant forall j :: base <= j < base + i ==> ns'[j] == TLeaf(v)
    {
      ghost var m := p.altdir[..];
      DraftLeaf(o, p.H(), m, ns', nown, base + i, v);
      var w: u32 := LEAF_TAG + v;
      p.altdir[base + i] := w;
      assert p.altdir[..] == m[base + i := w];
      ns' := ns'[base + i := TLeaf(v)];
      i := i + 1;
    }
  }

  /** A single entry: the traced path is the entry itself. */
  lemma EntryTraced(h: Heap, w: u32, e: TSlot)
    requires EntryAt(h, w, e)
    ensures Traced(h, w, [Frame(-1, -1)], [e])
    ensures BottomAt(h, w, [Frame(-1, -1)], [e], if e.TKid? then w as int else -1)
  {
    hide Rep, Lin, B, FrameAt;
    if e.TKid? {
      RepSize(h, e.t);
      assert w in h.ln && w <= w < w + Pow2(h.ln[w]);
      assert Stands(h, w, [Frame(-1, -1)], [e], 0, w);
    }
  }

  /** _update_dp2 at depth 18: rebuild one entry in the alternative array. */
  method DraftOne(p: Poptrie, tnode: RadixNode, prefix: u32, ghost sh: Shape, ghost o: Before,
                  ghost ns: seq<TSlot>, ghost nown: map<Blk, nat>, ghost root: Cur, ghost W: set<object>)
    returns (ok: bool, ghost ns': seq<TSlot>, ghost nown': map<Blk, nat>)
    requires Drafting(p, o, ns, nown) && Clear(p, W)
    requires Pending(o, p.altdir[..], ns, Top(prefix, 18), Top(prefix, 18) + 1)
    requires sh.Fork? && tnode == sh.o && Sees(Copy(tnode), sh.l, sh.r, 18, SubN(root, Top(prefix, 18), 18), W)
    modifies p.Foot(), p.altdir, p`root, p`trace
    ensures Drafting(p, o, ns', nown') && p.Fails() >= old(p.Fails()) && (!ok ==> p.Fails() > old(p.Fails()))
    ensures SameBeside(old(p.altdir[..]), ns, p.altdir[..], ns', Top(prefix, 18), Top(prefix, 18) + 1)
    ensures p.Fails() == old(p.Fails()) ==> Renewed18(o, ns', root, Top(prefix, 18), Top(prefix, 18) + 1)
    ensures p.Fails() == old(p.Fails()) && DraftExact(o, old(p.H()), nown) ==> DraftExact(o, p.H(), nown')
    ensures Quiet(old(p.trace), p.trace, Blocks(old(p.H())), DraftNeed(SubN(root, Top(prefix, 18), 18)))
  {
    hide Drafted, Poptrie.Mem, Poptrie.Foot, Poptrie.Fails, Sees, SubN, Chunk, Top, Traced, Stands, Rebuild,
         Degenerate, Grows, Renewed, Drops, Quiet, Handed, Need, DraftNeed, Blocks,
         EntryAt, StripSlot, DraftExact, BottomAt, EntryB, Newly, Poptrie.H, Switched;
    p.FootHeld();
    OneNeed(SubN(root, Top(prefix, 18), 18));
    Index18(prefix);
    var idx := Chunk(prefix, 0, 18);
    ghost var h := p.H();
    ghost var m := p.altdir[..];
    ns', nown' := ns, nown;
    DraftEntryAt(o, h, m, ns, nown, idx);
    EntryTraced(h, m[idx], ns[idx]);
    EntryKind(h, m[idx], ns[idx]);
    var inode := if p.dir[idx] >= LEAF_TAG then -1 else p.dir[idx];
    ghost var e, hb, ha, sw;
    ok, e, hb, ha, sw := UpdatePart(p, Copy(tnode), inode, [Frame(-1, -1)], p.altdir, idx, true, [ns[idx]],
                                sh.l, sh.r, 18, SubN(root, Top(prefix, 18), 18), W);
    QuietLess(old(p.trace), p.trace, Blocks(h), Need(SubN(root, Top(prefix, 18), 18)) + 5, Blocks(h),
              DraftNeed(SubN(root, Top(prefix, 18), 18)));
    if !ok {
      DraftGrows(o, h, p.H(), m, ns, nown);
      return;
    }
    SameHeap(hb, p.H());
    DraftRenew(o, h, p.H(), m, ns, nown, idx, p.altdir[idx], e);
    ns', nown' := ns[idx := e], Newly(nown, idx, EntryB(p.altdir[idx], e) - Blocks(o.h));
  }

  lemma DraftEntryAt(o: Before, h: Heap, ds': seq<u32>, ns: seq<TSlot>, nown: map<Blk, nat>, i: nat)
    requires Drafted(o, h, ds', ns, nown) && i < DIRS
    ensures |ds'| == |ns| == |o.ds| == |o.es| == DIRS && EntryAt(h, ds'[i], ns[i])
  {
    DraftEntry(o, h, ds', ns, nown, i);
  }

  lemma EntryKind(h: Heap, w: u32, e: TSlot)
    requires EntryAt(h, w, e)
    ensures e.TLeaf? <==> w >= LEAF_TAG
  {}

  lemma SameHeap(h: Heap, h': Heap)
    requires Drops(h, h', {})
    ensures h' == h
  {
    assert h.ln - (set a | a in h.ln && NB(a) in {}) == h.ln;
    assert h.ll - (set a | a in h.ll && LB(a) in {}) == h.ll;
  }

  // ----- the recursion over the halves of the range

  /** Both halves done: the whole range is done. */
  lemma RangeJoin(ds0: seq<u32>, ns0: seq<TSlot>, ds1: seq<u32>, ns1: seq<TSlot>, ds2: seq<u32>, ns2: seq<TSlot>,
                  lo: nat, mid: nat, hi: nat)
    requires SameBeside(ds0, ns0, ds1, ns1, lo, mid) && SameBeside(ds1, ns1, ds2, ns2, mid, hi) && lo <= mid <= hi
    ensures SameBeside(ds0, ns0, ds2, ns2, lo, hi)
  {}

  lemma DoneJoin(o: Before, ds1: seq<u32>, ns1: seq<TSlot>, ds2: seq<u32>, ns2: seq<TSlot>, root: Cur, lo: nat,
          mid: nat, hi: nat)
    requires SameBeside(ds1, ns1, ds2, ns2, mid, hi) && lo <= mid <= hi
    requires Renewed18(o, ns1, root, lo, mid) && Renewed18(o, ns2, root, mid, hi)
    ensures Renewed18(o, ns2, root, lo, hi)
  {
    hide Renewal, StripSlot;
  }

  lemma PendingRest(o: Before, ds0: seq<u32>, ns0: seq<TSlot>, ds1: seq<u32>, ns1: seq<TSlot>, lo: nat, mid: nat,
          hi: nat)
    requires Pending(o, ds0, ns0, lo, hi) && SameBeside(ds0, ns0, ds1, ns1, lo, mid) && lo <= mid
    ensures Pending(o, ds1, ns1, mid, hi)
  {}

  /** Entries below a missing radix subtree. */
  lemma FilledDone(o: Before, ns: seq<TSlot>, root: Cur, j: nat, d: nat, v: u16)
    requires d <= 18 && |ns| == |o.es| == DIRS && IsLeaf(SubN(root, j, d)) && SubN(root, j, d).ext == v
    requires forall i :: j * Pow2(18 - d) <= i < (j + 1) * Pow2(18 - d) && i < DIRS ==> ns[i] == TLeaf(v)
    ensures Renewed18(o, ns, root, j * Pow2(18 - d), (j + 1) * Pow2(18 - d))
  {
    hide SubN, IsLeaf, Rebuild, Degenerate, Pow2;
    var n := Pow2(18 - d);
    Distribute(j + 1, 1, n);
    forall i | j * n <= i < (j + 1) * n && i < DIRS ensures StripSlot(ns[i]) == Renewal(StripSlot(o.es[i]), root, i) {
      var r: nat := i - j * n;
      Split(j, n);
      SubNCompose(root, j, d, r, 18 - d);
      SubNLeaf(SubN(root, j, d), r, 18 - d);
      LeafRebuild(StripSlot(o.es[i]), SubN(root, i, 18));
      StripLeaf(v);
    }
  }

  lemma Split(j: nat, n: nat)
    ensures (j + 1) * n == j * n + n
  {}

  /** _update_dp2: rebuild the entries below the radix node in the alternative array.  An error in
      the left half is dropped, as in the source: with no radix nodes in the right half there is success,
      whatever happened.  Where the old entries were right the new ones are
      those of a build from scratch. */
  method UpdateDp2(p: Poptrie, tnode: RadixNode, prefix: u32, depth: nat, ghost sh: Shape, ghost o: Before,
                   ghost ns: seq<TSlot>, ghost nown: map<Blk, nat>, ghost root: Cur, ghost W: set<object>)
    returns (ok: bool, ghost ns': seq<TSlot>, ghost nown': map<Blk, nat>)
    requires depth <= 18 && Canonical(prefix, depth) && Clear(p, W)
    requires Drafting(p, o, ns, nown)
    requires Pending(o, p.altdir[..], ns, Lo(prefix, depth), Lo(prefix, depth) + Pow2(18 - depth))
    requires sh.Fork? && tnode == sh.o && tnode in W
    requires Sees(Copy(tnode), sh.l, sh.r, depth, SubN(root, Top(prefix, depth), depth), W)
    modifies p.Foot(), p.altdir, p`root, p`trace
    ensures Drafting(p, o, ns', nown') && p.Fails() >= old(p.Fails()) && (!ok ==> p.Fails() > old(p.Fails()))
    ensures depth < 18 && sh.r.Empty? ==> ok
    ensures SameBeside(old(p.altdir[..]), ns, p.altdir[..], ns', Lo(prefix, depth),
        Lo(prefix, depth) + Pow2(18 - depth))
    ensures p.Fails() == old(p.Fails()) ==>
        Renewed18(o, ns', root, Lo(prefix, depth), Lo(prefix, depth) + Pow2(18 - depth))
    ensures p.Fails() == old(p.Fails()) && DraftExact(o, old(p.H()), nown) ==> DraftExact(o, p.H(), nown')
    ensures p.Fails() == old(p.Fails()) ==>
        BuiltWhenRight(o, ns', root, Lo(prefix, depth), Lo(prefix, depth) + Pow2(18 - depth))
    ensures Quiet(old(p.trace), p.trace, Blocks(old(p.H())), DraftNeed(SubN(root, Top(prefix, depth), depth)))
    decreases 18 - depth, 1
  {
    hide Drafted, Poptrie.Mem, Poptrie.Foot, Poptrie.Fails, Sees, SubN, Top, Drafting, DraftExact, Pending,
         SameBeside, Renewed18, Pow2, Canonical, BuiltWhenRight, Quiet, DraftNeed, HalfNeed, Blocks;
    p.FootHeld();
    if depth == 18 {
      Pow2At18();
      ok, ns', nown' := DraftOne(p, tnode, prefix, sh, o, ns, nown, root, W);
      if p.Fails() == old(p.Fails()) { AnyBuilt(o, ns', root, Top(prefix, 18), Top(prefix, 18) + 1); }
      return;
    }
    ghost var lo, half := Lo(prefix, depth), Pow2(18 - (depth + 1));
    ghost var h, m := p.H(), p.altdir[..];
    ghost var c := SubN(root, Top(prefix, depth), depth);
    Halve(Top(prefix, depth), depth);
    GoLeft(prefix, depth);
    GoRight(prefix, depth);
    SeesObjs(Copy(tnode), sh.l, sh.r, depth, c, W);
    SeesDown(Copy(tnode), sh.l, sh.r, depth, c, W, false);
    SeesDown(Copy(tnode), sh.l, sh.r, depth, c, W, true);
    SubNHalves(root, Top(prefix, depth), depth);
    DraftingMem(p, o, ns, nown);
    PendingLess(o, m, ns, lo, lo + half, lo + 2 * half);
    var idx := FirstIndex(prefix, depth);
    var left;
    ghost var ns1, nown1;
    left, ns1, nown1 := Dp2Half(p, tnode.left, tnode.ext, prefix, depth + 1, idx, sh.l, o, ns, nown, root, W);
    ghost var m1, t1 := p.altdir[..], p.trace;
    DraftingMem(p, o, ns1, nown1);
    HalvesNeed(c);
    PendingRest(o, m, ns, m1, ns1, lo, lo + half, lo + 2 * half);
    ok, ns', nown' := Dp2Half(p, tnode.right, tnode.ext, RightOf(prefix, depth), depth + 1,
                              idx + Pow2(18 - (depth + 1)), sh.r, o, ns1, nown1, root, W);
    BothHalves(old(p.trace), t1, p.trace, HalfNeed(Down(c, false), c.left.Node?),
               HalfNeed(Down(c, true), c.right.Node?), DraftNeed(c));
    RangeJoin(m, ns, m1, ns1, p.altdir[..], ns', lo, lo + half, lo + 2 * half);
    if p.Fails() == old(p.Fails()) {
      DoneJoin(o, m1, ns1, p.altdir[..], ns', root, lo, lo + half, lo + 2 * half);
      AnyBuilt(o, ns', root, lo, lo + 2 * half);
    }
  }

  lemma DraftingMem(p: Poptrie, o: Before, ns: seq<TSlot>, nown: map<Blk, nat>)
    requires Drafting(p, o, ns, nown)
    ensures |p.trace| > 0 && Last(p.trace).h == p.H()
  {}

  lemma BothHalves(t0: seq<Moment>, t1: seq<Moment>, t2: seq<Moment>, n: nat, n': nat, m: nat)
    requires |t0| > 0 && Quiet(t0, t1, Blocks(Last(t0).h), n)
    requires |t1| > 0 && Quiet(t1, t2, Blocks(Last(t1).h), n') && n + n' <= m
    ensures Quiet(t0, t2, Blocks(Last(t0).h), m)
  {
    hide Quiet;
    BuildTwice(t0, t1, t2, n, n');
    QuietLess(t0, t2, Blocks(Last(t0).h), n + n', Blocks(Last(t0).h), m);
  }

  lemma AnyBuilt(o: Before, ns: seq<TSlot>, root: Cur, lo: nat, hi: nat)
    requires Renewed18(o, ns, root, lo, hi)
    ensures BuiltWhenRight(o, ns, root, lo, hi)
  {
    hide Renewed18, Renewable, Built;
    forall mode: Mode, c0: Cur, n: nat | Renewable(mode, o.es, c0, root, lo, hi, n) ensures Built(ns, root, lo, hi) {
      RenewedBuilt(mode, o, ns, c0, root, lo, hi, n);
    }
  }

  /** The nodes below a position are part of the tree that is read. */
  lemma SeesObjs(v: RView, sl: Shape, sr: Shape, d: nat, c: Cur, W: set<object>)
    requires Sees(v, sl, sr, d, c, W)
    ensures (sl.Fork? ==> sl.o in W) && (sr.Fork? ==> sr.o in W)
    ensures v.left == RootOf(sl) && v.right == RootOf(sr)
  {}

  lemma PendingLess(o: Before, ds': seq<u32>, ns: seq<TSlot>, lo: nat, mid: nat, hi: nat)
    requires Pending(o, ds', ns, lo, hi) && mid <= hi
    ensures Pending(o, ds', ns, lo, mid)
  {}

  /** One half: recurse into the child, or fill the entries with the inherited next hop. */
  method Dp2Half(p: Poptrie, child: RadixNode?, ext: RadixNode?, prefix: u32, depth: nat, base: nat, ghost s: Shape,
          ghost o: Before,
                 ghost ns: seq<TSlot>, ghost nown: map<Blk, nat>, ghost root: Cur, ghost W: set<object>)
    returns (ok: bool, ghost ns': seq<TSlot>, ghost nown': map<Blk, nat>)
    requires 0 < depth <= 18 && Canonical(prefix, depth) && Clear(p, W) && base == Lo(prefix, depth)
    requires child == RootOf(s)
    requires Drafting(p, o, ns, nown) && Pending(o, p.altdir[..], ns, base, base + Pow2(18 - depth))
    requires var c := SubN(root, Top(prefix, depth), depth);
             if s.Fork? then s.o in W && Sees(Copy(s.o), s.l, s.r, depth, c, W)
               else Sees(Blank(ext), Empty, Empty, depth, c, W)
    modifies p.Foot(), p.altdir, p`root, p`trace
    ensures Drafting(p, o, ns', nown') && p.Fails() >= old(p.Fails()) && (!ok ==> p.Fails() > old(p.Fails()))
    ensures s.Empty? ==> ok
    ensures SameBeside(old(p.altdir[..]), ns, p.altdir[..], ns', base, base + Pow2(18 - depth))
    ensures p.Fails() == old(p.Fails()) ==> Renewed18(o, ns', root, base, base + Pow2(18 - depth))
    ensures p.Fails() == old(p.Fails()) && DraftExact(o, old(p.H()), nown) ==> DraftExact(o, p.H(), nown')
    ensures Quiet(old(p.trace), p.trace, Blocks(old(p.H())), HalfNeed(SubN(root, Top(prefix, depth), depth), s.Fork?))
    decreases 18 - depth, 2
  {
    hide Drafted, Poptrie.Mem, Poptrie.Foot, Poptrie.Fails, Sees, SubN, Top, Drafting, DraftExact, Pending, Pow2,
         Canonical, Renewed18, Quiet, DraftNeed, Blocks;
    p.FootHeld();
    DraftingMem(p, o, ns, nown);
    if child != null {
      ok, ns', nown' := UpdateDp2(p, child, prefix, depth, s, o, ns, nown, root, W);
    } else {
      LoBound(prefix, depth);
      BlankExt(ext, depth, SubN(root, Top(prefix, depth), depth), W);
      ns' := FillAlt(p, base, Pow2(18 - depth), Nh(ext), o, ns, nown);
      ok, nown' := true, nown;
      QuietSelf(p.trace, Blocks(p.H()));
      Split(Top(prefix, depth), Pow2(18 - depth));
      DraftSizes(p, o, ns', nown');
      FilledDone(o, ns', root, Top(prefix, depth), depth, Nh(ext));
    }
  }

  lemma BlankExt(ext: RadixNode?, d: nat, c: Cur, W: set<object>)
    requires Sees(Blank(ext), Empty, Empty, d, c, W)
    ensures IsLeaf(c) && c.ext == Nh(ext) && (ext != null ==> ext in W)
  {
    BlankLeaf(ext, d, c, W, d);
  }

  lemma DraftSizes(p: Poptrie, o: Before, ns: seq<TSlot>, nown: map<Blk, nat>)
    requires Drafting(p, o, ns, nown)
    ensures |ns| == |o.es| == |o.ds| == DIRS
  {
    DraftEntry(o, p.H(), p.altdir[..], ns, nown, 0);
  }
}
