/** When a caller can know that changing or deleting a route is safe: no known route below it has
    length 25 or 31, the lengths at which a route fills one half of a slot. */
module Specifics {
  import opened Bits
  import opened Rib
  import opened Trie
  import opened TrieUpdate
  import opened Radix
  import opened Store
  import opened FibTable
  import opened Direct
  import opened Subtree
  import opened FastLookup
  import opened Refinement

  /** The update keeps what stands at this position although a half of it inherits the change. */
  predicate StaleAt(s0: Cur, s1: Cur) {
    !IsLeaf(s1) && !MarkedBelow(s1) && StaleHalf(s0, s1)
  }

  /** The depths of the slots below which the radix tree may go on. */
  predicate SlotDepth(d: nat) { d == 24 || d == 30 }

  ghost predicate NoStale(c0: Cur, c1: Cur) {
    forall j: nat, d: nat :: SlotDepth(d) && j < Pow2(d) ==> !StaleAt(SubN(c0, j, d), SubN(c1, j, d))
  }

  // ----- no stale position, no wrong reuse

  lemma {:induction false} NoStaleNode(o: Slot, root0: Cur, root1: Cur, j: nat, d: nat)
    requires NodeDepth(d) && j < Pow2(d) && NoStale(root0, root1) && Tall(root1) <= 32
    ensures ReuseOK(o, SubN(root0, j, d), SubN(root1, j, d))
    decreases o
  {
    hide SubN, Tall, IsLeaf, MarkedBelow, StaleHalf, Pow2;
    var c0, c1 := SubN(root0, j, d), SubN(root1, j, d);
    if o.Kid? && |o.t.slots| == 64 {
      forall i | 0 <= i < 64 ensures ReuseSlotOK(o, c0, c1, i) {
        SlotPosition(root1, j, d, i);
        SlotAbove(root0, j, d, i);
        if !IsLeaf(SubN(c1, i, 6)) {
          assert !StaleAt(SubN(root0, 64 * j + i, d + 6), SubN(root1, 64 * j + i, d + 6));
          NoStaleNode(o.t.slots[i], root0, root1, 64 * j + i, d + 6);
        }
      }
    }
  }

  lemma SlotAbove(root: Cur, j: nat, d: nat, i: nat)
    requires i < 64
    ensures SubN(SubN(root, j, d), i, 6) == SubN(root, 64 * j + i, d + 6)
  {
    Pow2At6();
    SubNCompose(root, j, d, i, 6);
  }

  lemma {:induction false} NoStalePath(o: Slot, root0: Cur, root1: Cur, prefix: u32, len: nat, d: nat)
    requires len <= 32 && NodeDepth(d) && NoStale(root0, root1) && Tall(root1) <= 32
    ensures ReusePath(o, Walk(root0, prefix, d), Walk(root1, prefix, d), prefix, len, d)
    decreases 64 - d
  {
    hide SubN, Tall, Pow2, NoStale, Chunk, Top, ReuseOK;
    TopBound(prefix, d);
    if o.Leaf? || len <= d + 6 || |o.t.slots| != 64 {
      NoStaleNode(o, root0, root1, Top(prefix, d), d);
    } else {
      Pow2At6();
      WalkStep(root0, prefix, d, 6);
      WalkStep(root1, prefix, d, 6);
      NoStalePath(o.t.slots[Chunk(prefix, d, 6)], root0, root1, prefix, len, d + 6);
    }
  }

  lemma NoStaleReuse(es: seq<TSlot>, root0: Cur, root1: Cur, prefix: u32, len: nat)
    requires |es| == DIRS && len <= 32 && NoStale(root0, root1) && Tall(root1) <= 32
    ensures ReuseAll(es, root0, root1, prefix, len)
  {
    hide SubN, Tall, Pow2, NoStale, Top, ReuseOK, ReusePath, Covered, StripSlot;
    Pow2At18();
    forall i | 0 <= i < |es| && Covered(prefix, len, i)
        ensures ReuseAt(StripSlot(es[i]), root0, root1, prefix, len, i) {
      if len <= 24 {
        NoStaleNode(StripSlot(es[i]), root0, root1, i, 18);
        ShortPath(StripSlot(es[i]), SubN(root0, i, 18), SubN(root1, i, 18), prefix, len);
      } else {
        LongCovered(prefix, len, i);
        NoStalePath(StripSlot(es[i]), root0, root1, prefix, len, 18);
      }
    }
  }

  lemma LongCovered(prefix: u32, len: nat, i: nat)
    requires len > 18 && Covered(prefix, len, i)
    ensures i == Top(prefix, 18)
  {}

  // ----- the routes decide

  /** The table has no route of length 25 or 31 that is more specific than the prefix. */
  predicate NoHalfRoute<H>(table: map<Prefix, H>, prefix: u32, len: nat)
    requires len <= 32
  {
    forall k :: k in table && (k.len == 25 || k.len == 31) && k.len > len ==>
        Shr(k.bits, k.len - len) != Path(prefix, len)
  }

  /** A position whose inherited route has changed lies at or below the updated route. */
  lemma ChangedBelow(c0: Cur, c1: Cur, i: nat, n: nat, route: Option<u16>, j: nat, d: nat)
    requires Toward(Changing, c0, c1, i, n, route) && i < Pow2(n) && j < Pow2(d)
    requires SubN(c1, j, d).ext != SubN(c0, j, d).ext
    ensures n <= d && Shr(j, d - n) == i
    ensures Settled(Changing, SubN(c0, j, d), SubN(c1, j, d))
  {
    hide SubN, Toward, Pow2, Settled;
    if d < n {
      ExtAbove(c0, c1, i, n, route, j, d);
    } else {
      var k := Shr(j, d - n);
      TowardSub(Changing, c0, c1, i, n, route, k, n);
      SplitIndex(j, d, d - n);
      SubNCompose(c0, k, n, j % Pow2(d - n), d - n);
      SubNCompose(c1, k, n, j % Pow2(d - n), d - n);
      ShrBound(j, d - n, d);
      PathIsIndex(i, n, k);
      TowardSettles(Changing, c0, c1, i, n, route, j, d);
    }
  }

  lemma SplitIndex(j: nat, d: nat, m: nat)
    ensures Shr(j, m) * Pow2(m) + j % Pow2(m) == j && j % Pow2(m) < Pow2(m)
  {
    ShrIsDiv(j, m);
    Euclid(j, Pow2(m));
  }

  lemma PathIsIndex(i: nat, n: nat, k: nat)
    requires i < Pow2(n) && k < Pow2(n)
    ensures OnPath(i, n, k, n) ==> k == i
  {
    if OnPath(i, n, k, n) { SameDigits(k, i, n); }
  }

  lemma ExtAbove(c0: Cur, c1: Cur, i: nat, n: nat, route: Option<u16>, j: nat, d: nat)
    requires d < n && Toward(Changing, c0, c1, i, n, route)
    ensures SubN(c1, j, d).ext == SubN(c0, j, d).ext
  {
    hide SubN;
    TowardSub(Changing, c0, c1, i, n, route, j, d);
  }

  /** A stale position has a route of its own in the half that has radix nodes. */
  lemma StaleRoute(s0: Cur, s1: Cur) returns (b: bool)
    requires Settled(Changing, s0, s1) && UnmarkedAt(s0) && StaleAt(s0, s1)
    ensures RouteOf(if b then s0.right else s0.left).Some?
  {
    KeptSame(Changing, s0, s1);
    b := s1.left.Nil?;
  }

  lemma HalfKnown(r: Rib, table: map<Prefix, u16>, j: nat, d: nat, b: bool)
    requires Holds(r, table) && d < 32 && j < Pow2(d)
    requires var c := SubN(Enter(r, 0), j, d); RouteOf(if b then c.right else c.left).Some?
    ensures Prefix(2 * j + (if b then 1 else 0), d + 1) in table
  {
    hide SubN, Holds, At, Pow2;
    var h := 2 * j + (if b then 1 else 0);
    SubNAt(r, 0, j, d);
    Doubling(d);
    AtHalf(r, j, d, b);
    HoldsAt(r, table, h, d + 1);
  }

  lemma AtHalf(r: Rib, j: nat, d: nat, b: bool)
    ensures At(r, 2 * j + (if b then 1 else 0), d + 1) == Child(At(r, j, d), b)
  {
    var h := 2 * j + (if b then 1 else 0);
    assert h / 2 == j && h % 2 == (if b then 1 else 0);
  }

  lemma HoldsAt(r: Rib, table: map<Prefix, u16>, i: nat, m: nat)
    requires Holds(r, table) && m <= 32 && i < Pow2(m)
    ensures RouteOf(At(r, i, m)).Some? ==> Prefix(i, m) in table
  {
    hide At;
  }

  lemma HalfIndex(j: nat, b: bool, m: nat)
    ensures Shr(2 * j + (if b then 1 else 0), m + 1) == Shr(j, m)
  {}

  /** Without a more specific route of length 25 or 31 the reuse test is right. */
  lemma NoHalfRouteReuse(es: seq<TSlot>, r0: Rib, table: map<Prefix, u16>, prefix: u32, len: nat, route: Option<u16>)
    requires |es| == DIRS && len <= 32 && Holds(r0, table) && Unmarked(r0) && NoHalfRoute(table, prefix, len)
    requires var root := Enter(Put(Changing, r0, Path(prefix, len), len, route), 0); Tall(root) <= 32
    ensures ReuseAll(es, Enter(r0, 0), Enter(Put(Changing, r0, Path(prefix, len), len, route), 0), prefix, len)
  {
    hide SubN, Tall, Pow2, Toward, Put, Holds, Path, ReuseAll, StaleAt, NoHalfRoute, Unmarked, Settled;
    var c0, c1 := Enter(r0, 0), Enter(Put(Changing, r0, Path(prefix, len), len, route), 0);
    PutToward(Changing, r0, 0, Path(prefix, len), len, route);
    PathBound(prefix, len);
    EnterUnmarked(r0);
    forall j: nat, d: nat | SlotDepth(d) && j < Pow2(d) ensures !StaleAt(SubN(c0, j, d), SubN(c1, j, d)) {
      if StaleAt(SubN(c0, j, d), SubN(c1, j, d)) {
        StaleExt(SubN(c0, j, d), SubN(c1, j, d));
        ChangedBelow(c0, c1, Path(prefix, len), len, route, j, d);
        UnmarkedSub(c0, j, d);
        var b := StaleRoute(SubN(c0, j, d), SubN(c1, j, d));
        HalfKnown(r0, table, j, d, b);
        HalfIndex(j, b, d - len);
        NoSuchRoute(table, prefix, len, Prefix(2 * j + (if b then 1 else 0), d + 1));
      }
    }
    NoStaleReuse(es, c0, c1, prefix, len);
  }

  lemma NoSuchRoute<H>(table: map<Prefix, H>, prefix: u32, len: nat, k: Prefix)
    requires len <= 32 && NoHalfRoute(table, prefix, len) && k in table && (k.len == 25 || k.len == 31) && k.len > len
    ensures Shr(k.bits, k.len - len) != Path(prefix, len)
  {}

  lemma StaleExt(s0: Cur, s1: Cur)
    requires StaleAt(s0, s1)
    ensures s1.ext != s0.ext
  {}
}
