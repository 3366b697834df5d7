/** The shape of all direct-pointing entries together, kept by every update; and a fast form that agrees
    with the radix tree is the one built from scratch. */
module TableShape {
  import opened Bits
  import opened Rib
  import opened Trie
  import opened TrieUpdate
  import opened Radix
  import opened Overlook
  import opened Neatness
  import opened Store
  import opened FibTable
  import opened Direct
  import opened Subtree
  import opened FastLookup
  import opened Refinement

  lemma NeatUpdateEntry(mode: Mode, o: Slot, c0: Cur, c1: Cur, prefix: u32, len: nat, route: Option<u16>, n: nat)
    requires len <= 32 && NeatEntry(o, c0, n) && CurExtends(c0, c1) && CurBelow(c1, n)
    requires len > 24 ==> Toward(mode, c0, c1, Top(prefix, len), len - 18, route)
    ensures NeatEntry(UpdateEntry(o, c1, prefix, len), c1, n)
  {
    hide SubN, Top, Toward, IsLeaf, Rebuild, Degenerate, CurExtends, CurBelow, Compress, Overlooked, Refresh;
    if Overlooked(o, c1, prefix, len, 18) {
      NeatGrows(o, c0, c1, n, n);
    } else if o.Leaf? || len <= 24 {
      NeatRebuild(o, c0, c1, n);
      NeatRoot(o, c1, n);
    } else {
      StillGoesOn(c0, c1);
      NeatRefresh(mode, o, c0, c1, prefix, len, 18, route, n);
    }
  }

  lemma StillGoesOn(c0: Cur, c1: Cur)
    requires CurExtends(c0, c1)
    ensures !IsLeaf(c0) ==> !IsLeaf(c1)
  {}

  /** Every update keeps the shape. */
  lemma NeatUpdate(mode: Mode, es: seq<TSlot>, es': seq<TSlot>, c0: Cur, c1: Cur, prefix: u32, len: nat,
                   route: Option<u16>, n0: nat, n: nat)
    requires AllNeat(es, c0, n0) && n0 <= n && CurExtends(c0, c1) && CurBelow(c1, n) && len <= 32
    requires Toward(mode, c0, c1, Top(prefix, len), len, route) && Refreshed(es, es', c1, prefix, len)
    ensures AllNeat(es', c1, n)
  {
    hide NeatEntry, SubN, StripSlot, Top, Toward, Covered, UpdateEntry, Settled, CurExtends, CurBelow;
    CurSelf(c0);
    forall i | 0 <= i < DIRS ensures NeatEntry(StripSlot(es'[i]), SubN(c1, i, 18), n) {
      AllNeatAt(es, c0, n0, i);
      SubNExtends(c0, c1, i, 18);
      if Covered(prefix, len, i) {
        CoveredEntry(mode, c0, c1, prefix, len, route, i);
        SubNExtends(c0, c0, i, 18);
        SubNBelow(c1, i, 18, n);
        NeatGrows(StripSlot(es[i]), SubN(c0, i, 18), SubN(c0, i, 18), n0, n);
        NeatUpdateEntry(mode, StripSlot(es[i]), SubN(c0, i, 18), SubN(c1, i, 18), prefix, len, route, n);
      } else {
        NeatGrows(StripSlot(es[i]), SubN(c0, i, 18), SubN(c1, i, 18), n0, n);
      }
    }
  }

  lemma CurSelf(c: Cur)
    ensures CurExtends(c, c)
  {
    ExtendsSelf(c.left);
    ExtendsSelf(c.right);
  }

  lemma CurPlain(c: Cur, n: nat)
    ensures CurExtends(c, Plain(c))
    ensures CurBelow(c, n) ==> CurBelow(Plain(c), n)
  {
    UnmarkExtends(c.left);
    UnmarkExtends(c.right);
    if CurBelow(c, n) {
      UnmarkBelow(c.left, n);
      UnmarkBelow(c.right, n);
    }
  }

  /** More next hops, more radix nodes, fewer marks. */
  lemma AllNeatMore(es: seq<TSlot>, c0: Cur, c1: Cur, n0: nat, n: nat)
    requires AllNeat(es, c0, n0) && n0 <= n && CurExtends(c0, c1)
    ensures AllNeat(es, c1, n)
  {
    hide NeatEntry, SubN, StripSlot, CurExtends;
    forall i | 0 <= i < DIRS ensures NeatEntry(StripSlot(es[i]), SubN(c1, i, 18), n) {
      AllNeatAt(es, c0, n0, i);
      SubNExtends(c0, c1, i, 18);
      NeatGrows(StripSlot(es[i]), SubN(c0, i, 18), SubN(c1, i, 18), n0, n);
    }
  }

  // ----- the fast form is a function of the radix tree

  /** The entry is the one built from scratch; only its top node may be kept where one next hop
      would do. */
  ghost predicate FreshAt(s: Slot, c: Cur) {
    match s
    case Leaf(v) => s == Compress(Fresh(c))
    case Kid(t) => t == Fresh(c)
  }

  ghost predicate AllFresh(es: seq<TSlot>, root: Cur) {
    |es| == DIRS && forall i :: 0 <= i < DIRS ==> FreshAt(StripSlot(es[i]), SubN(root, i, 18))
  }

  lemma EntryFresh(s: Slot, c: Cur, n: nat)
    requires TracksEntry(s, c) && NeatEntry(s, c, n) && CurBelow(c, n)
    ensures FreshAt(s, c)
  {
    hide Tracks, NeatNode, CurBelow, Const, Rebuild, Fresh;
    match s
    case Leaf(v) =>
      FreshIs(c);
      FreshNeat(c, n);
      FreshTracks(0, c);
      ConstNode(Fresh(c), c, v, n);
    case Kid(t) => TracksIsFresh(t, c, n);
  }

  lemma FreshIs(c: Cur)
    ensures Fresh(c) == Rebuild(Leaf(0), c)
  {}

  /** A fast form that agrees with the radix tree is determined by it. */
  lemma TrackingIsFresh(es: seq<TSlot>, root: Cur, n: nat)
    requires Tracking(es, root) && AllNeat(es, root, n) && CurBelow(root, n)
    ensures AllFresh(es, root)
  {
    hide TracksEntry, NeatEntry, SubN, StripSlot, CurBelow, FreshAt;
    forall i | 0 <= i < DIRS ensures FreshAt(StripSlot(es[i]), SubN(root, i, 18)) {
      TrackingAt(es, root, i);
      AllNeatAt(es, root, n, i);
      SubNBelow(root, i, 18, n);
      EntryFresh(StripSlot(es[i]), SubN(root, i, 18), n);
    }
  }

  /** Marks do not matter to a build from scratch. */
  lemma {:induction false} FreshPlain(c: Cur)
    ensures Fresh(Plain(c)) == Fresh(c)
    decreases Tall(c)
  {
    forall i | 0 <= i < 64 ensures Fresh(Plain(c)).slots[i] == Fresh(c).slots[i] {
      SubNPlain(c, i, 6);
      SubNTall(c, i, 6);
      LeafIsTall0(SubN(c, i, 6));
      RebuildAt(Leaf(0), c, i);
      RebuildAt(Leaf(0), Plain(c), i);
      if !IsLeaf(SubN(c, i, 6)) { FreshPlain(SubN(c, i, 6)); }
    }
    assert Fresh(Plain(c)).slots == Fresh(c).slots;
  }

  /** The covered entries are those that a build of their radix blocks from scratch gives. */
  ghost predicate RangeFresh(es: seq<TSlot>, root: Cur, prefix: u32, len: nat) {
    |es| == DIRS && forall i :: 0 <= i < DIRS && Covered(prefix, len, i) ==>
      StripSlot(es[i]) == Compress(Fresh(SubN(root, i, 18)))
  }

  lemma EntryRebuilt(mode: Mode, o: Slot, c0: Cur, c1: Cur, prefix: u32, len: nat, route: Option<u16>, n: nat)
    requires len <= 24 && TracksEntry(o, c0) && UnmarkedAt(c0) && ReusePath(o, c0, c1, prefix, len, 18)
    requires if len > 18 then Toward(mode, c0, c1, Top(prefix, len), len - 18, route) else Settled(mode, c0, c1)
    requires NeatEntry(o, c0, n) && CurExtends(c0, c1) && CurBelow(c1, n)
    ensures UpdateEntry(o, c1, prefix, len) == Compress(Fresh(c1))
  {
    hide SubN, Top, Toward, Const, IsLeaf, Rebuild, Degenerate, ReuseOK, Settled, SlotsSettled, CurExtends, CurBelow,
         UnmarkedAt, Tracks, NeatNode, Fresh;
    EntrySize(o, c0);
    CoveredSlots(mode, c0, c1, prefix, len, route);
    ShortSeen(o, c1, prefix, len);
    ShortPath(o, c0, c1, prefix, len);
    RebuildIsFresh(mode, o, c0, c1, n);
  }

  /** Direct-pointing and top-node rebuilds give exactly what building from scratch gives. */
  lemma RenewedIsFresh(mode: Mode, es: seq<TSlot>, es': seq<TSlot>, c0: Cur, c1: Cur, prefix: u32, len: nat,
                       route: Option<u16>, n: nat)
    requires Tracking(es, c0) && UnmarkedAt(c0) && len <= 24 && Toward(mode, c0, c1, Top(prefix, len), len, route)
    requires Refreshed(es, es', c1, prefix, len) && ReuseAll(es, c0, c1, prefix, len)
    requires AllNeat(es, c0, n) && CurExtends(c0, c1) && CurBelow(c1, n)
    ensures RangeFresh(es', c1, prefix, len)
  {
    hide TracksEntry, NeatEntry, SubN, StripSlot, Top, Toward, Covered, UpdateEntry, Settled, ReusePath, UnmarkedAt,
         CurExtends, CurBelow, Compress, Fresh;
    forall i | 0 <= i < DIRS && Covered(prefix, len, i)
      ensures StripSlot(es'[i]) == Compress(Fresh(SubN(c1, i, 18)))
    {
      TrackingAt(es, c0, i);
      AllNeatAt(es, c0, n, i);
      assert ReuseAt(StripSlot(es[i]), c0, c1, prefix, len, i);
      CoveredEntry(mode, c0, c1, prefix, len, route, i);
      UnmarkedSub(c0, i, 18);
      SubNExtends(c0, c1, i, 18);
      SubNBelow(c1, i, 18, n);
      EntryRebuilt(mode, StripSlot(es[i]), SubN(c0, i, 18), SubN(c1, i, 18), prefix, len, route, n);
    }
  }

  lemma RangePlain(es: seq<TSlot>, root: Cur, prefix: u32, len: nat)
    requires RangeFresh(es, root, prefix, len)
    ensures RangeFresh(es, Plain(root), prefix, len)
  {
    hide Covered, StripSlot, SubN, Compress, Fresh;
    forall i | 0 <= i < DIRS && Covered(prefix, len, i)
      ensures StripSlot(es[i]) == Compress(Fresh(SubN(Plain(root), i, 18)))
    {
      SubNPlain(root, i, 18);
      FreshPlain(SubN(root, i, 18));
    }
  }

  // ----- after an update of the radix tree

  lemma EnterExtends(r0: Rib, r1: Rib)
    requires Extends(r0, r1)
    ensures CurExtends(Enter(r0, 0), Enter(r1, 0))
  {}

  lemma EnterBelow(r: Rib, n: nat)
    requires HopsBelow(r, n) && n > 0
    ensures CurBelow(Enter(r, 0), n)
  {}

  /** The shape of the table after a route at the given path was set or deleted. */
  lemma ShapeAfter(mode: Mode, es: seq<TSlot>, es': seq<TSlot>, r0: Rib, prefix: u32, len: nat, route: Option<u16>,
                   n0: nat, n: nat)
    requires len <= 32 && 0 < n0 <= n && AllNeat(es, Enter(r0, 0), n0) && HopsBelow(r0, n0)
    requires route.Some? ==> route.value < n
    requires Refreshed(es, es', Enter(Put(mode, r0, Path(prefix, len), len, route), 0), prefix, len)
    ensures var r' := Unmark(Put(mode, r0, Path(prefix, len), len, route));
      AllNeat(es', Enter(r', 0), n) && HopsBelow(r', n) && Extends(r0, r')
  {
    hide AllNeat, Refreshed, Put, Path, Unmark, CurExtends, CurBelow, HopsBelow, Extends, Toward;
    var r1 := Put(mode, r0, Path(prefix, len), len, route);
    HopsBelowMore(r0, n0, n);
    PutExtends(mode, r0, Path(prefix, len), len, route);
    PutBelow(mode, r0, Path(prefix, len), len, route, n);
    EnterExtends(r0, r1);
    EnterBelow(r1, n);
    PutIsToward(mode, r0, prefix, len, route);
    NeatUpdate(mode, es, es', Enter(r0, 0), Enter(r1, 0), prefix, len, route, n0, n);
    CurPlain(Enter(r1, 0), n);
    EnterPlain(r1, 0);
    AllNeatMore(es', Enter(r1, 0), Enter(Unmark(r1), 0), n, n);
    UnmarkBelow(r1, n);
    UnmarkExtends(r1);
    ExtendsTransitive(r0, r1, Unmark(r1));
  }
}
