/** The refreshed fast form refines the changed radix tree: always after an added route; after a
    changed or deleted route exactly when the reuse test never kept an outdated slot. */
module Refinement {
  import opened Bits
  import opened Rib
  import opened Trie
  import opened TrieUpdate
  import opened Radix
  import opened Overlook
  import opened Store
  import opened FibTable
  import opened Direct
  import opened Subtree
  import opened FastLookup

  // ----- marks do not matter to what is read

  function Plain(c: Cur): Cur {
    Cur(Unmark(c.left), Unmark(c.right), c.ext)
  }

  lemma EnterPlain(r: Rib, e: u16)
    ensures Enter(Unmark(r), e) == Plain(Enter(r, e))
  {}

  lemma {:induction false} SubNPlain(c: Cur, i: nat, n: nat)
    ensures SubN(Plain(c), i, n) == Plain(SubN(c, i, n))
  {
    if n > 0 {
      SubNPlain(c, i / 2, n - 1);
      var s := SubN(c, i / 2, n - 1);
      EnterPlain(if i % 2 == 1 then s.right else s.left, s.ext);
    }
  }

  lemma {:induction false} UniformPlain(r: Rib, e: u16, v: u16)
    ensures Uniform(Unmark(r), e, v) == Uniform(r, e, v)
  {
    if r.Node? {
      UniformPlain(r.left, Ext(r, e), v);
      UniformPlain(r.right, Ext(r, e), v);
    }
  }

  lemma {:induction false} TracksPlain(s: Slot, c: Cur)
    requires TracksEntry(s, c)
    ensures TracksEntry(s, Plain(c))
    decreases s
  {
    match s
    case Leaf(v) =>
      UniformPlain(c.left, c.ext, v);
      UniformPlain(c.right, c.ext, v);
    case Kid(t) =>
      forall i | 0 <= i < 64 ensures TracksSlot(t.slots[i], SubN(Plain(c), i, 6)) {
        SubNPlain(c, i, 6);
        assert TracksSlot(t.slots[i], SubN(c, i, 6));
        TracksPlain(t.slots[i], SubN(c, i, 6));
      }
  }

  lemma TrackingPlain(es: seq<TSlot>, root: Cur)
    requires Tracking(es, root)
    ensures Tracking(es, Plain(root))
  {
    hide TracksEntry, SubN, StripSlot;
    forall i | 0 <= i < DIRS ensures TracksEntry(StripSlot(es[i]), SubN(Plain(root), i, 18)) {
      SubNPlain(root, i, 18);
      TracksPlain(StripSlot(es[i]), SubN(root, i, 18));
    }
  }

  lemma ValPlain(c: Cur, addr: nat)
    ensures Val(Plain(c), addr) == Val(c, addr)
  {
    SubNPlain(c, addr, 32);
  }

  /** Before the update the changed position is the updated route's. */
  lemma PutIsToward(mode: Mode, r0: Rib, prefix: u32, len: nat, route: Option<u16>)
    requires len <= 32
    ensures Top(prefix, len) == Path(prefix, len)
    ensures Toward(mode, Enter(r0, 0), Enter(Put(mode, r0, Path(prefix, len), len, route), 0), Top(prefix, len), len,
        route)
  {
    hide Top, Shr;
    TopAt32(prefix);
    PutToward(mode, r0, 0, Path(prefix, len), len, route);
  }

  // ----- which direct entries lie under the prefix

  /** Entry i lies below position i / 2^(18 - d) of depth d. */
  lemma EntryBelow(i: nat, d: nat) returns (j: nat, r: nat)
    requires d <= 18 && i < DIRS
    ensures i == j * Pow2(18 - d) + r && r < Pow2(18 - d) && j < Pow2(d)
  {
    j, r := Shr(i, 18 - d), i % Pow2(18 - d);
    ShrIsDiv(i, 18 - d);
    Pow2At18();
    ShrBound(i, 18 - d, 18);
    Euclid(i, Pow2(18 - d));
  }

  lemma Euclid(i: nat, n: nat)
    requires n > 0
    ensures i == i / n * n + i % n
  {}

  /** An entry that the update does not cover reads the same radix position before and after. */
  lemma Uncovered(mode: Mode, c0: Cur, c1: Cur, prefix: u32, len: nat, route: Option<u16>, i: nat)
    requires len <= 32 && i < DIRS && !Covered(prefix, len, i)
    requires Toward(mode, c0, c1, Top(prefix, len), len, route)
    ensures SubN(c1, i, 18) == SubN(c0, i, 18)
  {
    hide SubN, Top, Chunk, Pow2, Toward;
    Pow2At18();
    var d := if len <= 18 then len else 18;
    var j, r := EntryBelow(i, d);
    ZeroChunk(prefix, d);
    assert j == Top(prefix, d) ==> Covered(prefix, len, i);
    ChunkOnPath(prefix, len, 0, d, j);
    TowardSub(mode, c0, c1, Top(prefix, len), len, route, j, d);
    SubNCompose(c0, j, d, r, 18 - d);
    SubNCompose(c1, j, d, r, 18 - d);
  }

  lemma ZeroChunk(prefix: u32, d: nat)
    requires d <= 32
    ensures Chunk(prefix, 0, d) == Top(prefix, d)
  {
    hide Pow2;
    TopAt32(prefix);
    TopStep(prefix, 0, d);
  }

  /** A covered entry is at or below the updated radix node, or on the way to it. */
  lemma CoveredEntry(mode: Mode, c0: Cur, c1: Cur, prefix: u32, len: nat, route: Option<u16>, i: nat)
    requires len <= 32 && i < DIRS && Covered(prefix, len, i)
    requires Toward(mode, c0, c1, Top(prefix, len), len, route)
    ensures len <= 18 ==> Settled(mode, SubN(c0, i, 18), SubN(c1, i, 18))
    ensures len > 18 ==>
        i == Top(prefix, 18) && Toward(mode, SubN(c0, i, 18), SubN(c1, i, 18), Top(prefix, len), len - 18, route)
  {
    hide SubN, Top, Chunk, Pow2, Toward, Settled;
    if len <= 18 {
      TowardSettles(mode, c0, c1, Top(prefix, len), len, route, i, 18);
    } else {
      Index18(prefix);
      FirstBlock(mode, c0, c1, prefix, len, route);
    }
  }

  // ----- soundness

  /** No covered entry keeps a slot whose routes changed. */
  ghost predicate ReuseAll(es: seq<TSlot>, c0: Cur, c1: Cur, prefix: u32, len: nat)
    requires len <= 32
  {
    forall i :: 0 <= i < |es| && Covered(prefix, len, i) ==> ReuseAt(StripSlot(es[i]), c0, c1, prefix, len, i)
  }

  ghost predicate ReuseAt(o: Slot, c0: Cur, c1: Cur, prefix: u32, len: nat, i: nat)
    requires len <= 32
  {
    ReusePath(o, SubN(c0, i, 18), SubN(c1, i, 18), prefix, len, 18)
  }

  lemma EntryTracks(mode: Mode, o: Slot, c0: Cur, c1: Cur, prefix: u32, len: nat, route: Option<u16>)
    requires len <= 32 && TracksEntry(o, c0) && UnmarkedAt(c0) && ReusePath(o, c0, c1, prefix, len, 18)
    requires if len > 18 then Toward(mode, c0, c1, Top(prefix, len), len - 18, route) else Settled(mode, c0, c1)
    ensures TracksEntry(UpdateEntry(o, c1, prefix, len), c1)
  {
    hide SubN, Top, Toward, Const, IsLeaf, Rebuild, Degenerate, ReuseOK, Settled, SlotsSettled;
    EntrySize(o, c0);
    if o.Leaf? {
      FreshTracks(o.v, c1);
      CompressEntry(Rebuild(o, c1), c1);
    } else if len <= 24 {
      CoveredSlots(mode, c0, c1, prefix, len, route);
      ShortSeen(o, c1, prefix, len);
      RebuildTracks(mode, o, c0, c1);
      CompressEntry(Rebuild(o, c1), c1);
    } else {
      NotOverlooked(mode, o, c0, c1, prefix, len, 18, route);
      RefreshTracks(mode, o, c0, c1, prefix, len, 18, route);
    }
  }

  /** The slots of the top node of a covered entry, when the whole node is rebuilt. */
  lemma CoveredSlots(mode: Mode, c0: Cur, c1: Cur, prefix: u32, len: nat, route: Option<u16>)
    requires len <= 24
    requires if len > 18 then Toward(mode, c0, c1, Top(prefix, len), len - 18, route) else Settled(mode, c0, c1)
    ensures SlotsSettled(mode, c0, c1)
  {
    if len > 18 { TowardSlots(mode, c0, c1, prefix, len, 18, route); } else { SettledSlots(mode, c0, c1); }
  }

  lemma EntrySize(o: Slot, c: Cur)
    requires TracksEntry(o, c)
    ensures o.Kid? ==> |o.t.slots| == 64
  {}

  /** Where the reuse test was right the refreshed fast form agrees with the changed tree. */
  lemma UpdateTracks(mode: Mode, es: seq<TSlot>, es': seq<TSlot>, c0: Cur, c1: Cur, prefix: u32, len: nat,
                     route: Option<u16>)
    requires Tracking(es, c0) && UnmarkedAt(c0) && len <= 32 && Toward(mode, c0, c1, Top(prefix, len), len, route)
    requires Refreshed(es, es', c1, prefix, len) && ReuseAll(es, c0, c1, prefix, len)
    ensures Tracking(es', c1)
  {
    hide TracksEntry, SubN, StripSlot, Top, Toward, Covered, UpdateEntry, Settled, ReusePath, UnmarkedAt;
    forall i | 0 <= i < DIRS ensures TracksEntry(StripSlot(es'[i]), SubN(c1, i, 18)) {
      TrackingAt(es, c0, i);
      if Covered(prefix, len, i) {
        assert ReuseAt(StripSlot(es[i]), c0, c1, prefix, len, i);
        CoveredEntry(mode, c0, c1, prefix, len, route, i);
        UnmarkedSub(c0, i, 18);
        EntryTracks(mode, StripSlot(es[i]), SubN(c0, i, 18), SubN(c1, i, 18), prefix, len, route);
      } else {
        Uncovered(mode, c0, c1, prefix, len, route, i);
      }
    }
  }

  lemma ShortPath(o: Slot, c0: Cur, c1: Cur, prefix: u32, len: nat)
    requires len <= 24
    ensures ReusePath(o, c0, c1, prefix, len, 18) <==> ReuseOK(o, c0, c1)
  {}

  /** After an added route the reuse test is right everywhere. */
  lemma AddReuses(es: seq<TSlot>, c0: Cur, c1: Cur, prefix: u32, len: nat, route: Option<u16>)
    requires len <= 32 && |es| == DIRS && UnmarkedAt(c0) && Toward(Adding, c0, c1, Top(prefix, len), len, route)
    ensures ReuseAll(es, c0, c1, prefix, len)
  {
    hide SubN, StripSlot, Top, Toward, Covered, Settled, ReusePath, UnmarkedAt, ReuseOK, SlotsSettled;
    forall i | 0 <= i < |es| && Covered(prefix, len, i) ensures ReuseAt(StripSlot(es[i]), c0, c1, prefix, len, i) {
      CoveredEntry(Adding, c0, c1, prefix, len, route, i);
      UnmarkedSub(c0, i, 18);
      if len <= 18 {
        SettledSlots(Adding, SubN(c0, i, 18), SubN(c1, i, 18));
        AddReuseOK(StripSlot(es[i]), SubN(c0, i, 18), SubN(c1, i, 18));
        ShortPath(StripSlot(es[i]), SubN(c0, i, 18), SubN(c1, i, 18), prefix, len);
      } else {
        AddReusePath(StripSlot(es[i]), SubN(c0, i, 18), SubN(c1, i, 18), prefix, len, 18, route);
      }
    }
  }

  // ----- and exactly then

  /** An outdated slot kept under entry i shows in the lookup of some address below it. */
  lemma StaleEntry(o: Slot, c0: Cur, root: Cur, prefix: u32, len: nat, route: Option<u16>, i: nat) returns (a: u32)
    requires len <= 32 && i < DIRS && Tall(root) <= 32 && UnmarkedAt(c0) && TracksEntry(o, c0)
    requires len <= 18 ==> Settled(Changing, c0, SubN(root, i, 18))
    requires len > 18 ==>
        i == Top(prefix, 18) && Toward(Changing, c0, SubN(root, i, 18), Top(prefix, len), len - 18, route)
    requires !ReusePath(o, c0, SubN(root, i, 18), prefix, len, 18)
    ensures Top(a, 18) == i && Look(UpdateEntry(o, SubN(root, i, 18), prefix, len), a, 18) != Val(root, a)
  {
    hide SubN, Top, Toward, Settled, ReuseOK, UnmarkedAt, SlotsSettled, Val, Tall, Rebuild, Const, Look, Degenerate,
         Pow2, Chunk;
    var c1 := SubN(root, i, 18);
    LeafReusable(o, c0, c1);
    EntrySize(o, c0);
    Pow2At18();
    if len <= 18 {
      ShortPath(o, c0, c1, prefix, len);
      ShortSeen(o, c1, prefix, len);
      SettledSlots(Changing, c0, c1);
      a := StaleRebuild(o, c0, c1, root, i, 18);
      LookCompress(Rebuild(o, c1), a, 18);
    } else {
      NotOverlooked(Changing, o, c0, c1, prefix, len, 18, route);
      a := StaleRefresh(o, c0, c1, prefix, len, 18, route, root);
      if len <= 24 { LookCompress(Rebuild(o, c1), a, 18); }
    }
  }

  /** If the reuse test went wrong anywhere, some address is looked up wrongly. */
  lemma StaleLookup(es: seq<TSlot>, es': seq<TSlot>, c0: Cur, root: Cur, prefix: u32, len: nat, route: Option<u16>)
    returns (a: u32)
    requires Tracking(es, c0) && UnmarkedAt(c0) && Tall(root) <= 32 && len <= 32
    requires Toward(Changing, c0, root, Top(prefix, len), len, route)
    requires Refreshed(es, es', root, prefix, len) && !ReuseAll(es, c0, root, prefix, len)
    ensures Chunk(a, 0, 18) < |es'| && Look(StripSlot(es'[Chunk(a, 0, 18)]), a, 18) != Val(root, a)
  {
    hide TracksEntry, SubN, StripSlot, Top, Toward, Covered, UpdateEntry, Settled, ReusePath, UnmarkedAt, Val, Tall,
         Look, Chunk;
    var i :| 0 <= i < |es| && Covered(prefix, len, i) && !ReuseAt(StripSlot(es[i]), c0, root, prefix, len, i);
    TrackingAt(es, c0, i);
    CoveredEntry(Changing, c0, root, prefix, len, route, i);
    UnmarkedSub(c0, i, 18);
    a := StaleEntry(StripSlot(es[i]), SubN(c0, i, 18), root, prefix, len, route, i);
    Index18(a);
  }

  /** Every address is looked up as its longest match. */
  ghost predicate AllRight(es: seq<TSlot>, root: Cur) {
    |es| == DIRS && forall a: u32 :: RightAt(es, root, a)
  }

  ghost predicate RightAt(es: seq<TSlot>, root: Cur, a: u32) {
    Chunk(a, 0, 18) < |es| && Look(StripSlot(es[Chunk(a, 0, 18)]), a, 18) == Val(root, a)
  }

  lemma TrackingIsRight(es: seq<TSlot>, root: Cur)
    requires Tracking(es, root) && Tall(root) <= 32
    ensures AllRight(es, root)
  {
    hide TracksEntry, SubN, StripSlot, Top, Val, Tall, Look, Chunk;
    forall a: u32 ensures RightAt(es, root, a) {
      Index18(a);
      TrackingAt(es, root, Chunk(a, 0, 18));
      TracksLook(StripSlot(es[Chunk(a, 0, 18)]), root, a, 18);
    }
  }

  /** After a changed or deleted route every lookup is right if and only if no covered entry kept
      an outdated slot. */
  lemma ChangeRightIff(es: seq<TSlot>, es': seq<TSlot>, c0: Cur, root: Cur, prefix: u32, len: nat, route: Option<u16>)
    requires Tracking(es, c0) && UnmarkedAt(c0) && Tall(root) <= 32 && len <= 32
    requires Toward(Changing, c0, root, Top(prefix, len), len, route)
    requires Refreshed(es, es', root, prefix, len)
    ensures AllRight(es', root) <==> ReuseAll(es, c0, root, prefix, len)
  {
    hide Tracking, UnmarkedAt, Tall, Toward, Refreshed, ReuseAll, Top;
    if ReuseAll(es, c0, root, prefix, len) {
      UpdateTracks(Changing, es, es', c0, root, prefix, len, route);
      TrackingIsRight(es', root);
    } else {
      var a := StaleLookup(es, es', c0, root, prefix, len, route);
      assert !RightAt(es', root, a);
    }
  }
}
