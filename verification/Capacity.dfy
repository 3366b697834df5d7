/** How much of the arenas a routing table uses, and when an operation cannot run out of memory. */
module Capacity {
  import opened Bits
  import opened Rib
  import opened Trie
  import opened Radix
  import opened Neatness
  import opened Store
  import opened Trace
  import opened Cost
  import opened PoptrieState
  import opened Splice
  import opened Part
  import opened Entries
  import opened FibTable
  import opened Direct
  import opened Subtree
  import opened FastLookup
  import opened Refinement
  import opened TableShape
  import opened Routes

  lemma OwnSize(nd: PNode)
    ensures |Own(nd)| <= 2
  {
    var a: set<Blk> := if nd.base1 == NONE then {} else {NB(nd.base1)};
    var b: set<Blk> := if nd.base0 == NONE then {} else {LB(nd.base0)};
    assert Own(nd) == a + b;
    assert |a| <= 1 && |b| <= 1;
  }

  /** A stored node owns two blocks, and stands only where the radix tree goes on: no more than two
      blocks for every radix node below it. */
  lemma {:induction false} TreeSize(t: Tree, c: Cur, n: nat)
    requires !IsLeaf(c) && |t.slots| == 64 && NeatNode(Strip(t), c, n)
    requires Regular(t)
    ensures |B(t)| <= 2 * Posts(c)
    decreases t, 65
  {
    hide Own, SlotB, Posts, SubN, IsLeaf, NeatNode, Strip;
    OwnSize(t.nd);
    SlotsSize(t, c, n, 64);
    BParts(t);
    BlockPosts(c);
    NeedIs(c);
  }

  /** Every node of the tree has 64 slots. */
  ghost predicate Regular(t: Tree)
    decreases t
  {
    |t.slots| == 64 && forall i :: 0 <= i < 64 && t.slots[i].TKid? ==> Regular(t.slots[i].t)
  }

  lemma {:induction false} SeenRegular(N: seq<PNode>, L: seq<u16>, t: Tree)
    requires Seen(N, L, t)
    ensures Regular(t)
    decreases t
  {
    SeenSize(N, L, t);
    forall i | 0 <= i < 64 && t.slots[i].TKid? ensures Regular(t.slots[i].t) { SeenRegular(N, L, t.slots[i].t); }
  }

  lemma NeedIs(c: Cur)
    ensures !IsLeaf(c) ==> Need(c) == 2 * Posts(c)
  {}

  lemma NeatSlotAt(t: Tree, c: Cur, n: nat, i: nat)
    requires |t.slots| == 64 && NeatNode(Strip(t), c, n) && i < 64 && t.slots[i].TKid?
    ensures !IsLeaf(SubN(c, i, 6)) && NeatNode(Strip(t.slots[i].t), SubN(c, i, 6), n)
  {
    StripAt(t, i);
    StripKid(t.slots[i].t);
    assert Neat(Strip(t).slots[i], SubN(c, i, 6), n);
  }

  lemma {:induction false} SlotsSize(t: Tree, c: Cur, n: nat, i: nat)
    requires !IsLeaf(c) && |t.slots| == 64 && NeatNode(Strip(t), c, n) && Regular(t) && i <= 64
    ensures |SlotsB(t.slots, i)| <= 2 * Level(c, 6, i)
    decreases t, i
  {
    hide Posts, SubN, IsLeaf, NeatNode, Strip;
    if i > 0 {
      SlotsSize(t, c, n, i - 1);
      LevelStep(c, i - 1);
      var s := t.slots[i - 1];
      assert SlotsB(t.slots, i) == SlotsB(t.slots, i - 1) + SlotB(s);
      if s.TKid? {
        NeatSlotAt(t, c, n, i - 1);
        TreeSize(s.t, SubN(c, i - 1, 6), n);
      }
    }
  }

  /** An entry owns no more than three blocks for every radix node below it. */
  lemma EntrySize(h: Heap, w: u32, e: TSlot, c: Cur, n: nat)
    requires EntryAt(h, w, e) && NeatEntry(StripSlot(e), c, n)
    ensures |EntryB(w, e)| <= 3 * Posts(c)
  {
    if e.TKid? {
      SeenRegular(h.N, h.L, e.t);
      StripKid(e.t);
      hide Strip, B, Seen, Held, Lin;
      TreeSize(e.t, c, n);
      LeafPosts(c);
    }
  }

  // ----- all entries together

  ghost function AllB(ds: seq<u32>, es: seq<TSlot>, i: nat): set<Blk>
    requires i <= |ds| == |es|
  {
    if i == 0 then {} else AllB(ds, es, i - 1) + EntryB(ds[i - 1], es[i - 1])
  }

  lemma {:induction false} InAllB(ds: seq<u32>, es: seq<TSlot>, i: nat, j: nat)
    requires j < i <= |ds| == |es|
    ensures EntryB(ds[j], es[j]) <= AllB(ds, es, i)
  {
    hide EntryB;
    if j < i - 1 { InAllB(ds, es, i - 1, j); }
  }

  lemma {:induction false} AllSize(h: Heap, ds: seq<u32>, es: seq<TSlot>, own: map<Blk, nat>, c: Cur, n: nat, i: nat)
    requires Fib(h, ds, es, own) && AllNeat(es, c, n) && i <= DIRS
    ensures |ds| == |es| == DIRS && |AllB(ds, es, i)| <= 3 * Level(c, 18, i)
  {
    hide EntryB, EntryAt, NeatEntry, StripSlot, SubN, Posts, Fib, AllNeat;
    FibSize(h, ds, es, own);
    if i > 0 {
      AllSize(h, ds, es, own, c, n, i - 1);
      FibEntry(h, ds, es, own, i - 1);
      AllNeatAt(es, c, n, i - 1);
      EntrySize(h, ds[i - 1], es[i - 1], SubN(c, i - 1, 18), n);
    }
  }

  lemma {:induction false} LevelTotal(c: Cur, n: nat)
    ensures Level(c, n, Pow2(n)) <= Posts(c)
  {
    if n == 0 {
      assert Level(c, 0, 1) == Posts(SubN(c, 0, 0));
    } else {
      LevelTotal(c, n - 1);
      Doubling(n - 1);
      LevelSplit(c, n - 1, Pow2(n - 1));
    }
  }

  /** A table has no more than three blocks for every node of its radix tree. */
  lemma OwnedSize(h: Heap, ds: seq<u32>, es: seq<TSlot>, own: map<Blk, nat>, c: Cur, n: nat)
    requires Fib(h, ds, es, own) && AllNeat(es, c, n)
    ensures |own.Keys| <= 3 * Posts(c)
  {
    hide EntryB, EntryAt, SubN, Posts, AllNeat, Level;
    AllSize(h, ds, es, own, c, n, DIRS);
    forall b | b in own ensures b in AllB(ds, es, DIRS) {
      FibEntry(h, ds, es, own, own[b]);
      InAllB(ds, es, DIRS, own[b]);
    }
    Pow2At18();
    LevelTotal(c, 18);
    SubsetSize(own.Keys, AllB(ds, es, DIRS));
  }

  lemma {:induction false} SubsetSize<X>(A: set<X>, C: set<X>)
    requires A <= C
    ensures |A| <= |C|
  {
    if A != {} {
      var x :| x in A;
      SubsetSize(A - {x}, C - {x});
    }
  }

  lemma {:induction false} NodesSize(live: map<nat, nat>)
    ensures |set a | a in live :: NB(a)| == |live|
    decreases |live|
  {
    var S := set a | a in live :: NB(a);
    if live == map[] {
      assert S == {};
    } else {
      var a :| a in live;
      NodesSize(live - {a});
      assert S == (set x | x in live - {a} :: NB(x)) + {NB(a)};
      GivenSize(live, a);
    }
  }

  lemma {:induction false} LeavesSize(live: map<nat, nat>)
    ensures |set a | a in live :: LB(a)| == |live|
    decreases |live|
  {
    var S := set a | a in live :: LB(a);
    if live == map[] {
      assert S == {};
    } else {
      var a :| a in live;
      LeavesSize(live - {a});
      assert S == (set x | x in live - {a} :: LB(x)) + {LB(a)};
      GivenSize(live, a);
    }
  }

  /** Whatever operations led to a table, it uses no more than three blocks for every node of its radix
      tree. */
  lemma LiveFew(s: State)
    requires Consistent(s)
    ensures |s.h.ln| <= 3 * Count(s.rib) && |s.h.ll| <= 3 * Count(s.rib)
  {
    hide Fib, Holds, AllNeat, HopsBelow, Recorded, Height;
    OwnedSize(s.h, s.ds, s.es, s.own, Enter(s.rib, 0), |s.hops|);
    NodesSize(s.h.ln);
    LeavesSize(s.h.ll);
    SubsetSize(set a | a in s.h.ln :: NB(a), Blocks(s.h));
    SubsetSize(set a | a in s.h.ll :: LB(a), Blocks(s.h));
  }

  /** Arenas in which no table with that many radix nodes can run out of blocks. */
  predicate Ample(nodes: nat, leaves: nat, count: nat) {
    64 * (10 * count + 242) < nodes && 64 * (10 * count + 242) < leaves
  }

  /** One operation on a table in ample arenas is refused no block. */
  lemma NeverRefused(s: State, t: seq<Moment>)
    requires Consistent(s) && Ample(|s.h.N|, |s.h.L|, Count(s.rib))
    requires Chained(t) && Spends(s.trace, t, Demand(s.rib))
    ensures Last(t).failed == Last(s.trace).failed
  {
    hide Fib, Holds, AllNeat, HopsBelow, Height, Chained;
    LiveFew(s);
    NoneRefused(s.trace, t, Demand(s.rib));
  }
}
