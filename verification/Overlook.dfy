/** The early exit of _update_part on an equal leaf vector: a leaf below which a route has changed
    into a single other next hop is overlooked when its neighbours differ from both.  This never
    happens to a fast form that agrees with the radix tree. */
module Overlook {
  import opened Bits
  import opened Rib
  import opened Trie
  import opened TrieUpdate

  // ----- leaf vectors

  /** The last leaf among the first i slots. */
  function LeafBefore(slots: seq<Slot>, i: nat): Option<u16>
    requires i <= |slots|
  {
    if i == 0 then None
    else if slots[i - 1].Leaf? then Some(slots[i - 1].v) else LeafBefore(slots, i - 1)
  }

  /** Slot i is a leaf that differs from the leaf before it: its leaf vector bit. */
  predicate Starts(slots: seq<Slot>, i: nat)
    requires i < |slots|
  {
    slots[i].Leaf? && LeafBefore(slots, i) != Some(slots[i].v)
  }

  /** Both have the same leaf vector. */
  ghost predicate SameRuns(a: seq<Slot>, b: seq<Slot>) {
    |a| == |b| && forall i :: 0 <= i < |a| ==> Starts(a, i) == Starts(b, i)
  }

  /** The first leaf from slot i on. */
  function LeafAfter(slots: seq<Slot>, i: nat): Option<u16>
    requires i <= |slots|
    decreases |slots| - i
  {
    if i == |slots| then None
    else if slots[i].Leaf? then Some(slots[i].v) else LeafAfter(slots, i + 1)
  }

  lemma {:induction false} LeafBeforeReplaced(slots: seq<Slot>, i: nat, w: u16, j: nat)
    requires i < |slots| && j <= |slots| && slots[i].Leaf?
    ensures LeafBefore(slots[i := Leaf(w)], j) ==
            if i < j && (forall k :: i < k < j ==> slots[k].Kid?) then Some(w) else LeafBefore(slots, j)
  {
    if j > 0 { LeafBeforeReplaced(slots, i, w, j - 1); }
  }

  lemma {:induction false} LeafBeforeKids(slots: seq<Slot>, i: nat, j: nat)
    requires i < j <= |slots| && slots[i].Leaf? && forall k :: i < k < j ==> slots[k].Kid?
    ensures LeafBefore(slots, j) == Some(slots[i].v)
  {
    if i + 1 < j { LeafBeforeKids(slots, i, j - 1); }
  }

  lemma {:induction false} NextLeaf(slots: seq<Slot>, i: nat) returns (j: nat)
    requires i <= |slots|
    ensures i <= j <= |slots| && (forall k :: i <= k < j ==> slots[k].Kid?)
    ensures j < |slots| ==> slots[j].Leaf? && LeafAfter(slots, i) == Some(slots[j].v)
    ensures j == |slots| ==> LeafAfter(slots, i) == None
    decreases |slots| - i
  {
    if i == |slots| || slots[i].Leaf? { j := i; } else { j := NextLeaf(slots, i + 1); }
  }

  /** Replacing the leaf v in slot i by w leaves the leaf vector alone exactly when the leaf before
      and the leaf after are neither v nor w. */
  lemma NeighboursDecide(slots: seq<Slot>, i: nat, w: u16)
    requires i < |slots| && slots[i].Leaf? && slots[i].v != w
    ensures SameRuns(slots, slots[i := Leaf(w)]) <==>
      && LeafBefore(slots, i) != Some(slots[i].v) && LeafBefore(slots, i) != Some(w)
      && LeafAfter(slots, i + 1) != Some(slots[i].v) && LeafAfter(slots, i + 1) != Some(w)
  {
    var b := slots[i := Leaf(w)];
    var j := NextLeaf(slots, i + 1);
    forall k | 0 <= k <= |slots| { LeafBeforeReplaced(slots, i, w, k); }
    if j < |slots| { LeafBeforeKids(slots, i, j); LeafBeforeKids(b, i, j); }
    if SameRuns(slots, b) {
      assert Starts(slots, i) == Starts(b, i);
      if j < |slots| { assert Starts(slots, j) == Starts(b, j); }
    } else {
      var k :| 0 <= k < |slots| && Starts(slots, k) != Starts(b, k);
      assert k == i || k == j;
    }
  }

  // ----- the early exit

  /** Replacing the leaf x of node t by n below a kept node neither compresses the node nor changes
      its leaf vector, so that the update stops. */
  ghost predicate Stops(t: Trie, idx: nat, x: Slot, n: Slot, top: bool)
    requires idx < |t.slots|
  {
    && x.Leaf? && n.Leaf? && n != x && (top || !Degenerate(Trie(t.slots[idx := n])))
    && SameRuns(t.slots, t.slots[idx := n])
  }

  /** Replacing the leaf x by n keeps the node with its children but changes its leaf vector, so that
      only the leaf block is replaced. */
  ghost predicate Releafs(t: Trie, idx: nat, x: Slot, n: Slot, top: bool)
    requires idx < |t.slots|
  {
    && x.Leaf? && n.Leaf? && n != x && (top || !Degenerate(Trie(t.slots[idx := n])))
    && !SameRuns(t.slots, t.slots[idx := n])
  }

  /** The update of the node o at `depth` meets the early exit although the next hop has changed. */
  ghost predicate Overlooked(o: Slot, c: Cur, prefix: u32, len: nat, depth: nat)
    requires len <= 32
    decreases 64 - depth
  {
    && o.Kid? && len > depth + 6 && |o.t.slots| == 64
    && (Pow2At6();
        var idx := Chunk(prefix, depth, 6);
        var x, s := o.t.slots[idx], SubN(c, idx, 6);
        if x.Leaf? then Stops(o.t, idx, x, Compress(Rebuild(x, s)), depth == 18)
        else Overlooked(x, s, prefix, len, depth + 6))
  }

  /** The direct-pointing entry after the update. */
  ghost function UpdateEntry(o: Slot, c: Cur, prefix: u32, len: nat): Slot
    requires len <= 32
  {
    if Overlooked(o, c, prefix, len, 18) then o else RefreshEntry(o, c, prefix, len)
  }

  /** A leaf above the updated route keeps its next hop when it stays a leaf, if it was right. */
  lemma LeafStays(mode: Mode, x: Slot, c0: Cur, c1: Cur, i: nat, n: nat, route: Option<u16>)
    requires n > 0 && Toward(mode, c0, c1, i, n, route) && TracksEntry(x, c0)
    ensures x.Leaf? && Compress(Rebuild(x, c1)).Leaf? ==> Compress(Rebuild(x, c1)) == x
  {
    hide Rebuild, Const;
    if x.Leaf? && Compress(Rebuild(x, c1)).Leaf? {
      FreshTracks(x.v, c1);
      DegenerateConst(Rebuild(x, c1), c1);
      LeafKept(mode, c0, c1, i, n, route, x.v, Rebuild(x, c1).slots[0].v);
    }
  }

  /** Where the fast form agreed with the radix tree nothing is overlooked. */
  lemma {:induction false} NotOverlooked(mode: Mode, o: Slot, c0: Cur, c1: Cur, prefix: u32, len: nat, depth: nat,
                                         route: Option<u16>)
    requires depth <= len <= 32 && TracksEntry(o, c0)
    requires Toward(mode, c0, c1, Top(prefix, len), len - depth, route)
    ensures !Overlooked(o, c1, prefix, len, depth)
    decreases 64 - depth
  {
    hide Chunk, SubN, Toward, Const, Rebuild, Compress, SameRuns, Top;
    if o.Kid? && len > depth + 6 && |o.t.slots| == 64 {
      Pow2At6();
      var idx := Chunk(prefix, depth, 6);
      var s0, s1 := SubN(c0, idx, 6), SubN(c1, idx, 6);
      ChunkOnPath(prefix, len, depth, 6, idx);
      TowardSub(mode, c0, c1, Top(prefix, len), len - depth, route, idx, 6);
      assert TracksSlot(o.t.slots[idx], s0);
      LeafStays(mode, o.t.slots[idx], s0, s1, Top(prefix, len), len - depth - 6, route);
      NotOverlooked(mode, o.t.slots[idx], s0, s1, prefix, len, depth + 6, route);
    }
  }

  /** Updates at or above the top node rebuild whole entries. */
  lemma ShortSeen(o: Slot, c: Cur, prefix: u32, len: nat)
    requires len <= 24
    ensures UpdateEntry(o, c, prefix, len) == Compress(Rebuild(o, c))
  {}

  /** An overlooked update is a wrong answer for the address of the updated prefix itself. */
  lemma {:induction false} OverlookedWrong(o: Slot, root: Cur, prefix: u32, len: nat, depth: nat)
    requires depth <= len <= 32 && Tall(root) <= 32
    requires Overlooked(o, Walk(root, prefix, depth), prefix, len, depth)
    ensures Look(o, prefix, depth) != Val(root, prefix)
    decreases 64 - depth
  {
    hide Chunk, SubN, Const, Rebuild, SameRuns, Top, Val, Tall;
    Pow2At6();
    var idx := Chunk(prefix, depth, 6);
    var x, s := o.t.slots[idx], Walk(root, prefix, depth + 6);
    WalkStep(root, prefix, depth, 6);
    LookSlot(o.t, prefix, depth, idx);
    if x.Leaf? {
      FreshTracks(x.v, s);
      DegenerateConst(Rebuild(x, s), s);
      ConstVal(root, prefix, depth + 6, Rebuild(x, s).slots[0].v);
    } else {
      OverlookedWrong(x, root, prefix, len, depth + 6);
    }
  }
}
