/** The node and leaf arenas as one memory, and the trees of nodes stored in them.

    A `Tree` is a Poptrie subtree together with the node structure (bit vectors and base
    indices) of every node.  `Seen` says that the arenas hold it, `Held` that its blocks are
    allocated; `B` collects the blocks it owns. */
module Store {
  import opened Arith
  import opened Bits
  import opened BuddyModel
  import opened Rib
  import opened Trie

  /** (u32)-1: a node without children has no base1, one without leaves no base0. */
  const NONE: u32 := 0xffff_ffff

  /** struct poptrie_node */
  datatype PNode = PNode(leafvec: u64, vector: u64, base0: u32, base1: u32)

  datatype Tree = Tree(nd: PNode, slots: seq<TSlot>)

  datatype TSlot = TLeaf(v: u16) | TKid(t: Tree)

  function StripSlot(s: TSlot): Slot
    decreases s
  {
    match s
    case TLeaf(v) => Leaf(v)
    case TKid(t) => Kid(Strip(t))
  }

  /** The subtree without its addresses. */
  function Strip(t: Tree): (r: Trie)
    ensures |r.slots| == |t.slots|
    decreases t
  {
    Trie(seq(|t.slots|, i requires 0 <= i < |t.slots| => StripSlot(t.slots[i])))
  }

  // ----- the contents of one node

  /** The child nodes of the first n slots, in slot order. */
  function KidNodes(slots: seq<TSlot>, n: nat): (r: seq<PNode>)
    requires n <= |slots|
    ensures |r| <= n
  {
    if n == 0 then []
    else KidNodes(slots, n - 1) + (if slots[n - 1].TKid? then [slots[n - 1].t.nd] else [])
  }

  /** The next hops of the first n slots with repetitions left out; internal slots do not end a run. */
  function Runs(slots: seq<TSlot>, n: nat): (r: seq<u16>)
    requires n <= |slots|
    ensures |r| <= n
    decreases n, 0
  {
    if n == 0 then []
    else Runs(slots, n - 1) + (if StartsRun(slots, n - 1) then [slots[n - 1].v] else [])
  }

  /** Slot i is a leaf that differs from the leaf before it. */
  predicate StartsRun(slots: seq<TSlot>, i: nat)
    requires i < |slots|
    decreases i, 1
  {
    slots[i].TLeaf? && var r := Runs(slots, i); (r == [] || r[|r| - 1] != slots[i].v)
  }

  ghost predicate VectorOK(vector: u64, slots: seq<TSlot>) {
    |slots| == 64 && forall i :: 0 <= i < 64 ==> Bit(vector, i) == slots[i].TKid?
  }

  /** The leaf vector is canonical: it marks exactly the slots where a run of leaves starts. */
  ghost predicate LeafvecOK(leafvec: u64, slots: seq<TSlot>) {
    |slots| == 64 && forall i :: 0 <= i < 64 ==> Bit(leafvec, i) == StartsRun(slots, i)
  }

  predicate Stored<X(==)>(M: seq<X>, base: u32, items: seq<X>) {
    if items == [] then base == NONE
    else base != NONE && base + |items| <= |M| && M[base..base + |items|] == items
  }

  /** The arenas hold the node's children and leaves where its base indices say. */
  ghost predicate NodeSeen(N: seq<PNode>, L: seq<u16>, nd: PNode, slots: seq<TSlot>) {
    && VectorOK(nd.vector, slots)
    && LeafvecOK(nd.leafvec, slots)
    && Stored(N, nd.base1, KidNodes(slots, 64))
    && Stored(L, nd.base0, Runs(slots, 64))
  }

  ghost predicate Seen(N: seq<PNode>, L: seq<u16>, t: Tree)
    decreases t
  {
    && NodeSeen(N, L, t.nd, t.slots)
    && forall i :: 0 <= i < 64 && t.slots[i].TKid? ==> Seen(N, L, t.slots[i].t)
  }

  lemma {:induction false} RankIsKids(vector: u64, slots: seq<TSlot>, n: nat)
    requires VectorOK(vector, slots) && n <= 64
    ensures Rank(vector, n) == |KidNodes(slots, n)|
  {
    if n > 0 { RankIsKids(vector, slots, n - 1); }
  }

  lemma {:induction false} RankIsRuns(leafvec: u64, slots: seq<TSlot>, n: nat)
    requires LeafvecOK(leafvec, slots) && n <= 64
    ensures Rank(leafvec, n) == |Runs(slots, n)|
  {
    if n > 0 { RankIsRuns(leafvec, slots, n - 1); }
  }

  lemma {:induction false} KidNodesPrefix(slots: seq<TSlot>, m: nat, n: nat)
    requires m <= n <= |slots|
    ensures KidNodes(slots, m) <= KidNodes(slots, n)
  {
    if m < n { KidNodesPrefix(slots, m, n - 1); }
  }

  lemma {:induction false} RunsPrefix(slots: seq<TSlot>, m: nat, n: nat)
    requires m <= n <= |slots|
    ensures Runs(slots, m) <= Runs(slots, n)
  {
    if m < n { RunsPrefix(slots, m, n - 1); }
  }

  lemma LastKid(slots: seq<TSlot>, i: nat)
    requires i < |slots| && slots[i].TKid?
    ensures var r := KidNodes(slots, i + 1); r != [] && r[|r| - 1] == slots[i].t.nd
  {}

  /** The rank of a set vector bit is the child's place in the child block. */
  lemma KidAt(N: seq<PNode>, L: seq<u16>, nd: PNode, slots: seq<TSlot>, i: nat)
    requires NodeSeen(N, L, nd, slots) && i < 64
    ensures slots[i].TKid? ==>
      var k := Rank(nd.vector, i + 1);
      1 <= k && nd.base1 + k - 1 < |N| && N[nd.base1 + k - 1] == slots[i].t.nd && nd.base1 != NONE
  {
    hide Rank, Runs, KidNodes, StartsRun;
    RankIsKids(nd.vector, slots, i + 1);
    KidNodesPrefix(slots, i + 1, 64);
    var K := KidNodes(slots, 64);
    var k := |KidNodes(slots, i + 1)|;
    if slots[i].TKid? {
      LastKid(slots, i);
      assert K[k - 1] == KidNodes(slots, i + 1)[k - 1] == slots[i].t.nd;
      assert N[nd.base1..nd.base1 + |K|][k - 1] == K[k - 1];
    }
  }

  lemma {:induction false} LastRun(slots: seq<TSlot>, i: nat)
    requires i < |slots| && slots[i].TLeaf?
    ensures var r := Runs(slots, i + 1); r != [] && r[|r| - 1] == slots[i].v
  {}

  /** The rank of a clear vector bit in the leaf vector is the place of its next hop. */
  lemma LeafAt(N: seq<PNode>, L: seq<u16>, nd: PNode, slots: seq<TSlot>, i: nat)
    requires NodeSeen(N, L, nd, slots) && i < 64
    ensures slots[i].TLeaf? ==>
      var k := Rank(nd.leafvec, i + 1);
      1 <= k && nd.base0 + k - 1 < |L| && L[nd.base0 + k - 1] == slots[i].v
  {
    hide Rank, Runs, KidNodes, StartsRun;
    RankIsRuns(nd.leafvec, slots, i + 1);
    RunsPrefix(slots, i + 1, 64);
    var R := Runs(slots, 64);
    var k := |Runs(slots, i + 1)|;
    if slots[i].TLeaf? {
      LastRun(slots, i);
      assert R[k - 1] == Runs(slots, i + 1)[k - 1] == slots[i].v;
      assert L[nd.base0..nd.base0 + |R|][k - 1] == R[k - 1];
    }
  }

  lemma {:induction false} NoKids(slots: seq<TSlot>, n: nat)
    requires n <= |slots|
    ensures KidNodes(slots, n) == [] <==> forall i :: 0 <= i < n ==> slots[i].TLeaf?
  {
    if n > 0 { NoKids(slots, n - 1); }
  }

  /** A node with no children and one run of leaves is a single next hop. */
  lemma {:induction false} OneRun(slots: seq<TSlot>, n: nat)
    requires 0 < n <= |slots| && forall i :: 0 <= i < n ==> slots[i].TLeaf?
    ensures Runs(slots, n) != [] && Runs(slots, n)[0] == slots[0].v
    ensures |Runs(slots, n)| == 1 <==> forall i :: 0 <= i < n ==> slots[i] == slots[0]
  {
    assert Runs(slots, 0) == [];
    if n > 1 {
      OneRun(slots, n - 1);
      LastRun(slots, n - 2);
      LastRun(slots, n - 1);
    }
  }

  /** All slots are leaves with the same next hop. */
  predicate OneHop(slots: seq<TSlot>) {
    |slots| == 64 && slots[0].TLeaf? && forall i :: 0 <= i < 64 ==> slots[i] == slots[0]
  }

  lemma StripOneHop(t: Tree)
    requires |t.slots| == 64
    ensures Degenerate(Strip(t)) <==> OneHop(t.slots)
    ensures OneHop(t.slots) ==> Strip(t).slots[0] == Leaf(t.slots[0].v)
  {
    var r := Strip(t);
    assert forall i :: 0 <= i < 64 ==> r.slots[i] == StripSlot(t.slots[i]);
    if Degenerate(r) {
      forall i | 0 <= i < 64 ensures t.slots[i] == t.slots[0] { assert r.slots[i] == r.slots[0]; }
    }
  }

  lemma DegenerateMeans(t: Tree)
    requires |t.slots| == 64
    ensures Degenerate(Strip(t)) <==> KidNodes(t.slots, 64) == [] && |Runs(t.slots, 64)| == 1
    ensures Degenerate(Strip(t)) ==> Strip(t).slots[0] == Leaf(Runs(t.slots, 64)[0])
  {
    hide Degenerate, Strip, KidNodes, Runs;
    StripOneHop(t);
    NoKids(t.slots, 64);
    if forall i :: 0 <= i < 64 ==> t.slots[i].TLeaf? { OneRun(t.slots, 64); }
  }

  // ----- blocks

  datatype Blk = NB(at: nat) | LB(at: nat)

  /** The arenas with the levels of their allocated blocks. */
  datatype Heap = Heap(N: seq<PNode>, L: seq<u16>, ln: map<nat, nat>, ll: map<nat, nat>)

  ghost predicate Has(h: Heap, b: Blk) {
    match b
    case NB(a) => a in h.ln
    case LB(a) => a in h.ll
  }

  ghost function Blocks(h: Heap): set<Blk> {
    (set a | a in h.ln :: NB(a)) + (set a | a in h.ll :: LB(a))
  }

  lemma InBlocks(h: Heap, b: Blk)
    ensures b in Blocks(h) <==> Has(h, b)
  {}

  /** The blocks a node owns: its child block and its leaf block. */
  function Own(nd: PNode): set<Blk> {
    (if nd.base1 == NONE then {} else {NB(nd.base1)}) + (if nd.base0 == NONE then {} else {LB(nd.base0)})
  }

  function SlotB(s: TSlot): set<Blk>
    decreases s
  {
    if s.TKid? then B(s.t) else {}
  }

  /** The blocks owned by the first n slots. */
  function SlotsB(slots: seq<TSlot>, n: nat): set<Blk>
    requires n <= |slots|
    decreases slots, n
  {
    if n == 0 then {} else SlotsB(slots, n - 1) + SlotB(slots[n - 1])
  }

  function B(t: Tree): set<Blk>
    decreases t
  {
    Own(t.nd) + SlotsB(t.slots, |t.slots|)
  }

  lemma {:induction false} InSlotsB(slots: seq<TSlot>, n: nat, b: Blk)
    requires n <= |slots|
    ensures b in SlotsB(slots, n) <==> exists i :: 0 <= i < n && b in SlotB(slots[i])
  {
    if n > 0 { InSlotsB(slots, n - 1, b); }
  }

  lemma SlotInB(t: Tree, i: nat)
    requires i < |t.slots|
    ensures SlotB(t.slots[i]) <= B(t)
  {
    forall b | b in SlotB(t.slots[i]) ensures b in B(t) { InSlotsB(t.slots, |t.slots|, b); }
  }

  /** No block is owned twice within the tree. */
  ghost predicate Lin(t: Tree)
    decreases t
  {
    && (forall i, j :: 0 <= i < j < |t.slots| ==> SlotB(t.slots[i]) !! SlotB(t.slots[j]))
    && (forall i :: 0 <= i < |t.slots| ==> Own(t.nd) !! SlotB(t.slots[i]))
    && (forall i :: 0 <= i < |t.slots| && t.slots[i].TKid? ==> Lin(t.slots[i].t))
  }

  /** A node's blocks are allocated, and of the least size that holds its children and leaves. */
  ghost predicate NodeHeld(h: Heap, nd: PNode, slots: seq<TSlot>) {
    && |slots| == 64
    && (nd.base1 != NONE ==> nd.base1 in h.ln && Snug(|KidNodes(slots, 64)|, h.ln[nd.base1]))
    && (nd.base0 != NONE ==> nd.base0 in h.ll && Snug(|Runs(slots, 64)|, h.ll[nd.base0]))
  }

  ghost predicate Held(h: Heap, t: Tree)
    decreases t
  {
    && NodeHeld(h, t.nd, t.slots)
    && forall i :: 0 <= i < |t.slots| && t.slots[i].TKid? ==> Held(h, t.slots[i].t)
  }

  /** The memory holds t in allocated blocks. */
  ghost predicate Rep(h: Heap, t: Tree) {
    Seen(h.N, h.L, t) && Held(h, t)
  }

  lemma {:induction false} HeldBlocks(h: Heap, t: Tree)
    requires Held(h, t)
    ensures B(t) <= Blocks(h)
  {
    forall b | b in B(t) ensures b in Blocks(h) {
      if b in SlotsB(t.slots, |t.slots|) {
        InSlotsB(t.slots, |t.slots|, b);
        var i :| 0 <= i < |t.slots| && b in SlotB(t.slots[i]);
        HeldBlocks(h, t.slots[i].t);
      }
    }
  }

  // ----- what a change of memory leaves alone

  ghost predicate KeepsBlock(h: Heap, h': Heap, b: Blk) {
    match b
    case NB(a) =>
      a in h.ln ==> (a in h'.ln && h'.ln[a] == h.ln[a]
                     && forall x :: a <= x < a + Pow2(h.ln[a]) && x < |h.N| && x < |h'.N| ==> h'.N[x] == h.N[x])
    case LB(a) =>
      a in h.ll ==> (a in h'.ll && h'.ll[a] == h.ll[a]
                     && forall x :: a <= x < a + Pow2(h.ll[a]) && x < |h.L| && x < |h'.L| ==> h'.L[x] == h.L[x])
  }

  /** The blocks of S stay allocated with the same contents. */
  ghost predicate Keeps(h: Heap, h': Heap, S: set<Blk>) {
    |h'.N| == |h.N| && |h'.L| == |h.L| && forall b :: b in S ==> KeepsBlock(h, h', b)
  }

  /** Everything that was allocated is still there: a change confined to fresh blocks. */
  ghost predicate Grows(h: Heap, h': Heap) {
    Keeps(h, h', Blocks(h))
  }

  lemma KeepsBlockTransitive(h0: Heap, h1: Heap, h2: Heap, b: Blk)
    requires KeepsBlock(h0, h1, b) && KeepsBlock(h1, h2, b)
    requires |h1.N| == |h0.N| == |h2.N| && |h1.L| == |h0.L| == |h2.L|
    ensures KeepsBlock(h0, h2, b)
  {}

  lemma KeepsTransitive(h0: Heap, h1: Heap, h2: Heap, S: set<Blk>)
    requires Keeps(h0, h1, S) && Keeps(h1, h2, S)
    ensures Keeps(h0, h2, S)
  {
    forall b | b in S ensures KeepsBlock(h0, h2, b) { KeepsBlockTransitive(h0, h1, h2, b); }
  }

  lemma KeepsHas(h: Heap, h': Heap, S: set<Blk>)
    requires Keeps(h, h', S) && S <= Blocks(h)
    ensures S <= Blocks(h')
  {
    forall b | b in S ensures b in Blocks(h') {
      InBlocks(h, b);
      InBlocks(h', b);
      assert KeepsBlock(h, h', b);
    }
  }

  lemma GrowsTransitive(h0: Heap, h1: Heap, h2: Heap)
    requires Grows(h0, h1) && Grows(h1, h2)
    ensures Grows(h0, h2)
  {
    KeepsHas(h0, h1, Blocks(h0));
    KeepsTransitive(h0, h1, h2, Blocks(h0));
  }

  /** A block's slice survives. */
  lemma NodeKept(h: Heap, h': Heap, S: set<Blk>, nd: PNode, slots: seq<TSlot>)
    requires Keeps(h, h', S) && Own(nd) <= S
    requires NodeSeen(h.N, h.L, nd, slots) && NodeHeld(h, nd, slots)
    ensures NodeSeen(h'.N, h'.L, nd, slots) && NodeHeld(h', nd, slots)
  {
    hide VectorOK, LeafvecOK, KidNodes, Runs;
    if nd.base1 != NONE {
      assert NB(nd.base1) in S;
      NodesKept(h, h', nd.base1, KidNodes(slots, 64));
    }
    if nd.base0 != NONE {
      assert LB(nd.base0) in S;
      LeavesKept(h, h', nd.base0, Runs(slots, 64));
    }
  }

  lemma NodesKept(h: Heap, h': Heap, a: nat, K: seq<PNode>)
    requires KeepsBlock(h, h', NB(a)) && |h'.N| == |h.N|
    requires a in h.ln && |K| <= Pow2(h.ln[a]) && a + |K| <= |h.N| && h.N[a..a + |K|] == K
    ensures h'.N[a..a + |K|] == K
  {
    var s, s' := h.N[a..a + |K|], h'.N[a..a + |K|];
    assert forall i :: 0 <= i < |K| ==> s'[i] == s[i];
  }

  lemma LeavesKept(h: Heap, h': Heap, a: nat, R: seq<u16>)
    requires KeepsBlock(h, h', LB(a)) && |h'.L| == |h.L|
    requires a in h.ll && |R| <= Pow2(h.ll[a]) && a + |R| <= |h.L| && h.L[a..a + |R|] == R
    ensures h'.L[a..a + |R|] == R
  {
    var s, s' := h.L[a..a + |R|], h'.L[a..a + |R|];
    assert forall i :: 0 <= i < |R| ==> s'[i] == s[i];
  }

  lemma {:induction false} RepKept(h: Heap, h': Heap, S: set<Blk>, t: Tree)
    requires Keeps(h, h', S) && B(t) <= S && Rep(h, t)
    ensures Rep(h', t)
    decreases t
  {
    hide NodeSeen, NodeHeld, Keeps;
    assert NodeSeen(h.N, h.L, t.nd, t.slots) && NodeHeld(h, t.nd, t.slots);
    assert |t.slots| == 64 by { SeenSize(h.N, h.L, t); }
    NodeKept(h, h', S, t.nd, t.slots);
    forall i | 0 <= i < 64 && t.slots[i].TKid? ensures Rep(h', t.slots[i].t) {
      SlotInB(t, i);
      RepKept(h, h', S, t.slots[i].t);
    }
  }

  lemma SeenSize(N: seq<PNode>, L: seq<u16>, t: Tree)
    requires Seen(N, L, t)
    ensures |t.slots| == 64
  {}

  lemma RepGrows(h: Heap, h': Heap, t: Tree)
    requires Grows(h, h') && Rep(h, t)
    ensures Rep(h', t)
  {
    HeldBlocks(h, t);
    RepKept(h, h', Blocks(h), t);
  }

  // ----- memory operations

  ghost predicate HeapOK(h: Heap) {
    && Arena(h.ln, |h.N|) && Arena(h.ll, |h.L|)
    && |h.N| <= 0x4000_0000 && |h.L| <= 0x4000_0000
  }

  function Write<X>(M: seq<X>, a: nat, items: seq<X>): (r: seq<X>)
    requires a + |items| <= |M|
    ensures |r| == |M|
  {
    M[..a] + items + M[a + |items|..]
  }

  lemma WriteAt<X>(M: seq<X>, a: nat, items: seq<X>, x: nat)
    requires a + |items| <= |M| && x < |M|
    ensures Write(M, a, items)[x] == if a <= x < a + |items| then items[x - a] else M[x]
  {}

  lemma WriteSlice<X>(M: seq<X>, a: nat, items: seq<X>)
    requires a + |items| <= |M|
    ensures Write(M, a, items)[a..a + |items|] == items
  {}

  /** Allocating a node block disturbs nothing. */
  lemma AllocN(h: Heap, a: nat, k: nat)
    requires a !in h.ln
    ensures Grows(h, h.(ln := h.ln[a := k]))
    ensures Blocks(h.(ln := h.ln[a := k])) == Blocks(h) + {NB(a)}
  {
    var h' := h.(ln := h.ln[a := k]);
    forall b | b in Blocks(h) ensures KeepsBlock(h, h', b) {}
    forall b ensures b in Blocks(h') <==> b in Blocks(h) + {NB(a)} {
      InBlocks(h, b);
      InBlocks(h', b);
    }
  }

  lemma AllocL(h: Heap, a: nat, k: nat)
    requires a !in h.ll
    ensures Grows(h, h.(ll := h.ll[a := k]))
    ensures Blocks(h.(ll := h.ll[a := k])) == Blocks(h) + {LB(a)}
  {
    var h' := h.(ll := h.ll[a := k]);
    forall b | b in Blocks(h) ensures KeepsBlock(h, h', b) {}
    forall b ensures b in Blocks(h') <==> b in Blocks(h) + {LB(a)} {
      InBlocks(h, b);
      InBlocks(h', b);
    }
  }

  lemma FreeN(h: Heap, a: nat)
    requires a in h.ln
    ensures Keeps(h, h.(ln := h.ln - {a}), Blocks(h) - {NB(a)})
    ensures Blocks(h.(ln := h.ln - {a})) == Blocks(h) - {NB(a)}
  {
    var h' := h.(ln := h.ln - {a});
    forall b | b in Blocks(h) - {NB(a)} ensures KeepsBlock(h, h', b) {}
    forall b ensures b in Blocks(h') <==> b in Blocks(h) - {NB(a)} {
      InBlocks(h, b);
      InBlocks(h', b);
    }
  }

  lemma FreeL(h: Heap, a: nat)
    requires a in h.ll
    ensures Keeps(h, h.(ll := h.ll - {a}), Blocks(h) - {LB(a)})
    ensures Blocks(h.(ll := h.ll - {a})) == Blocks(h) - {LB(a)}
  {
    var h' := h.(ll := h.ll - {a});
    forall b | b in Blocks(h) - {LB(a)} ensures KeepsBlock(h, h', b) {}
    forall b ensures b in Blocks(h') <==> b in Blocks(h) - {LB(a)} {
      InBlocks(h, b);
      InBlocks(h', b);
    }
  }

  /** Writing inside one block leaves the contents of every other block. */
  lemma WriteN(h: Heap, a: nat, x: nat, items: seq<PNode>)
    requires HeapOK(h) && a in h.ln && a <= x && x + |items| <= a + Pow2(h.ln[a])
    ensures x + |items| <= |h.N|
    ensures Keeps(h, h.(N := Write(h.N, x, items)), Blocks(h) - {NB(a)})
  {
    var h' := h.(N := Write(h.N, x, items));
    forall b | b in Blocks(h) - {NB(a)} ensures KeepsBlock(h, h', b) {
      InBlocks(h, b);
      if b.NB? {
        forall y | b.at <= y < b.at + Pow2(h.ln[b.at]) && y < |h.N| ensures h'.N[y] == h.N[y] {
          WriteAt(h.N, x, items, y);
        }
      }
    }
  }

  lemma WriteL(h: Heap, a: nat, x: nat, items: seq<u16>)
    requires HeapOK(h) && a in h.ll && a <= x && x + |items| <= a + Pow2(h.ll[a])
    ensures x + |items| <= |h.L|
    ensures Keeps(h, h.(L := Write(h.L, x, items)), Blocks(h) - {LB(a)})
  {
    var h' := h.(L := Write(h.L, x, items));
    forall b | b in Blocks(h) - {LB(a)} ensures KeepsBlock(h, h', b) {
      InBlocks(h, b);
      if b.LB? {
        forall y | b.at <= y < b.at + Pow2(h.ll[b.at]) && y < |h.L| ensures h'.L[y] == h.L[y] {
          WriteAt(h.L, x, items, y);
        }
      }
    }
  }

  lemma KeepsLess(h: Heap, h': Heap, S: set<Blk>, S': set<Blk>)
    requires Keeps(h, h', S) && S' <= S
    ensures Keeps(h, h', S')
  {}

  /** Filling a freshly allocated node block. */
  lemma FillN(h: Heap, a: nat, k: nat, items: seq<PNode>)
    requires HeapOK(h.(ln := h.ln[a := k])) && a !in h.ln && |items| <= Pow2(k)
    ensures a + |items| <= |h.N|
    ensures var h' := h.(N := Write(h.N, a, items), ln := h.ln[a := k]);
            Grows(h, h') && Blocks(h') == Blocks(h) + {NB(a)} && h'.N[a..a + |items|] == items
  {
    var h1 := h.(ln := h.ln[a := k]);
    var h' := h1.(N := Write(h.N, a, items));
    AllocN(h, a, k);
    WriteN(h1, a, a, items);
    WriteSlice(h.N, a, items);
    InBlocks(h, NB(a));
    KeepsLess(h1, h', Blocks(h1) - {NB(a)}, Blocks(h));
    KeepsTransitive(h, h1, h', Blocks(h));
    BlocksOnLive(h1, h');
  }

  lemma FillL(h: Heap, a: nat, k: nat, items: seq<u16>)
    requires HeapOK(h.(ll := h.ll[a := k])) && a !in h.ll && |items| <= Pow2(k)
    ensures a + |items| <= |h.L|
    ensures var h' := h.(L := Write(h.L, a, items), ll := h.ll[a := k]);
            Grows(h, h') && Blocks(h') == Blocks(h) + {LB(a)} && h'.L[a..a + |items|] == items
  {
    var h1 := h.(ll := h.ll[a := k]);
    var h' := h1.(L := Write(h.L, a, items));
    AllocL(h, a, k);
    WriteL(h1, a, a, items);
    WriteSlice(h.L, a, items);
    InBlocks(h, LB(a));
    KeepsLess(h1, h', Blocks(h1) - {LB(a)}, Blocks(h));
    KeepsTransitive(h, h1, h', Blocks(h));
    BlocksOnLive(h1, h');
  }

  lemma BlocksOnLive(h: Heap, h': Heap)
    requires h.ln == h'.ln && h.ll == h'.ll
    ensures Blocks(h) == Blocks(h')
  {}
}
