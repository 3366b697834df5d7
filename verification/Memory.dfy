/** struct poptrie: the two arenas with their allocators, the direct-pointing arrays, the radix
    tree and the table of next hops; and the memory operations that the updates are made of. */
module PoptrieState {
  import opened Bits
  import opened BuddyModel
  import opened BuddyLists
  import opened BuddySystem
  import opened Rib
  import opened Trie
  import opened Radix
  import opened Store
  import opened Trace

  /** (u32)1 << 31: marks a direct entry that holds a next hop. */
  const LEAF_TAG: u32 := 0x8000_0000

  /** A next hop as the caller gave it; 0 is NULL. */
  type Hop = nat

  /** The arenas and their allocators share nothing. */
  ghost predicate Separate(nodes: array<PNode>, leaves: array<u16>, cnodes: Buddy, cleaves: Buddy) {
    && nodes.Length == cnodes.links.Length && leaves.Length == cleaves.links.Length
    && cnodes.Repr() !! cleaves.Repr()
    && nodes !in cnodes.Repr() && nodes !in cleaves.Repr()
    && leaves !in cnodes.Repr() && leaves !in cleaves.Repr()
    && nodes as object != leaves
  }

  ghost predicate Small(live: map<nat, nat>) {
    forall a :: a in live ==> live[a] <= 6
  }

  class Poptrie {
    const nodes: array<PNode>
    const leaves: array<u16>
    const cnodes: Buddy
    const cleaves: Buddy
    var root: u32
    var dir: array<u32>
    var altdir: array<u32>
    var radix: RadixNode?
    const entries: array<Hop>
    var nhops: nat

    /** The radix tree and its routes, the entries of `dir`, and the owner of every allocated block. */
    ghost var shape: Shape
    ghost var rib: Rib
    ghost var idxs: map<Prefix, u16>
    ghost var es: seq<TSlot>
    ghost var own: map<Blk, nat>

    /** Every single write so far to what a lookup reads. */
    ghost var trace: seq<Moment>

    /** The structure around its allocated parts. */
    constructor (nodes: array<PNode>, leaves: array<u16>, cnodes: Buddy, cleaves: Buddy,
                 dir: array<u32>, altdir: array<u32>, entries: array<Hop>)
      ensures this.nodes == nodes && this.leaves == leaves && this.cnodes == cnodes && this.cleaves == cleaves
      ensures this.dir == dir && this.altdir == altdir && this.entries == entries
      ensures radix == null && nhops == 1 && shape == Empty && rib == Nil && idxs == map[] && own == map[]
      ensures es == seq(0x4_0000, i => TLeaf(0))
      ensures trace == [Moment(Heap(nodes[..], leaves[..], cnodes.live, cleaves.live), dir[..], 0,
                               cnodes.failed + cleaves.failed)]
    {
      this.nodes, this.leaves, this.cnodes, this.cleaves := nodes, leaves, cnodes, cleaves;
      this.dir, this.altdir, this.entries := dir, altdir, entries;
      root, radix, nhops := 0, null, 1;
      shape, rib, idxs, own, es := Empty, Nil, map[], map[], seq(0x4_0000, i => TLeaf(0));
      trace := [Moment(Heap(nodes[..], leaves[..], cnodes.live, cleaves.live), dir[..], 0,
                       cnodes.failed + cleaves.failed)];
    }

    /** The direct-pointing arrays and the next-hop table are no part of the arenas. */
    ghost predicate Apart()
      reads `dir, `altdir
    {
      && dir != altdir && dir !in Foot() && altdir !in Foot()
      && entries !in Foot() && entries as object != dir && entries as object != altdir
      && this !in Foot()
    }

    ghost function Foot(): set<object> {
      {nodes, leaves} + cnodes.Repr() + cleaves.Repr()
    }

    /** Both allocators in order, handing out blocks of at most 64 units. */
    ghost predicate Arenas()
      reads Foot()
    {
      && cnodes.Valid() && cleaves.Valid() && Separate(nodes, leaves, cnodes, cleaves)
      && cnodes.level == cnodes.sz && cleaves.level == cleaves.sz && Small(cnodes.live) && Small(cleaves.live)
    }

    /** And the record of all writes ends with the memory and the direct entries as they are. */
    ghost predicate Mem()
      reads `trace, `dir, `altdir, dir, Foot()
    {
      && Arenas() && Apart()
      && |trace| > 0 && Chained(trace) && Last(trace) == Moment(H(), dir[..], Last(trace).asked, Fails())
    }

    /** The contents of the arenas and their allocated blocks. */
    ghost function H(): Heap
      reads Foot()
    {
      Heap(nodes[..], leaves[..], cnodes.live, cleaves.live)
    }

    /** How many allocations have failed so far. */
    function Fails(): nat
      reads Foot()
    {
      cnodes.failed + cleaves.failed
    }

    lemma FootHeld()
      ensures forall o :: o in Foot() ==> allocated(o)
    {}

    lemma MemHeap()
      requires Mem()
      ensures HeapOK(H())
      ensures |H().N| == nodes.Length && |H().L| == leaves.Length
    {
      LiveIsArena(cnodes);
      LiveIsArena(cleaves);
    }

    lemma MemTrace()
      requires Mem()
      ensures |trace| > 0 && Chained(trace) && Last(trace) == Moment(H(), dir[..], Last(trace).asked, Fails())
      ensures Apart()
    {}

    /** Record a write that has just been made. */
    ghost method Log(act: Act)
      requires Arenas() && Apart() && |trace| > 0 && Chained(trace) && Enabled(Last(trace), act)
      requires Do(Last(trace), act) == Moment(H(), dir[..], Do(Last(trace), act).asked, Fails())
      modifies `trace
      ensures Mem() && trace == old(trace) + [Do(Last(old(trace)), act)]
    {
      hide Arenas, Chained, Enabled, Do;
      ChainedPush(trace, act);
      trace := trace + [Do(Last(trace), act)];
    }

    /** buddy_alloc2(poptrie->cnodes, k): a block when some aligned run is free, and certainly when the
        arena is not tight. */
    method AllocNodes(k: nat) returns (a: int)
      requires Mem() && k <= 6
      modifies Foot(), `trace
      ensures Mem()
      ensures a < 0 ==> H() == old(H()) && Fails() > old(Fails()) && Tight(H().ln, nodes.Length)
      ensures a >= 0 ==> a !in old(H().ln) && Fails() == old(Fails())
      ensures a >= 0 ==> H() == old(H()).(ln := old(H()).ln[a := k])
      ensures a < NONE
      ensures k < cnodes.level ==> (a >= 0 <==> exists r: nat :: Unclaimed(old(H()).ln, nodes.Length, r, k))
      ensures Quiet(old(trace), trace, Blocks(old(H())), 1)
    {
      hide Buddy.Valid, Unclaimed, Blocks, Pow2, Chained, Tight, Quiet, Modest, Tiling;
      a := cnodes.Alloc(k);
      if a >= 0 {
        LiveBelow(cnodes, a);
        AskQuiet(trace, TakeNodes(a, k));
        Log(TakeNodes(a, k));
      } else {
        Refused(cnodes, k);
        AskQuiet(trace, Refuse);
        Log(Refuse);
      }
    }

    /** buddy_alloc2(poptrie->cleaves, k) */
    method AllocLeaves(k: nat) returns (a: int)
      requires Mem() && k <= 6
      modifies Foot(), `trace
      ensures Mem()
      ensures a < 0 ==> H() == old(H()) && Fails() > old(Fails()) && Tight(H().ll, leaves.Length)
      ensures a >= 0 ==> a !in old(H().ll) && Fails() == old(Fails())
      ensures a >= 0 ==> H() == old(H()).(ll := old(H()).ll[a := k])
      ensures a < NONE
      ensures k < cleaves.level ==> (a >= 0 <==> exists r: nat :: Unclaimed(old(H()).ll, leaves.Length, r, k))
      ensures Quiet(old(trace), trace, Blocks(old(H())), 1)
    {
      hide Buddy.Valid, Unclaimed, Blocks, Pow2, Chained, Tight, Quiet, Modest, Tiling;
      a := cleaves.Alloc(k);
      if a >= 0 {
        LiveBelow(cleaves, a);
        AskQuiet(trace, TakeLeaves(a, k));
        Log(TakeLeaves(a, k));
      } else {
        Refused(cleaves, k);
        AskQuiet(trace, Refuse);
        Log(Refuse);
      }
    }

    /** buddy_free2(poptrie->cnodes, a) */
    method FreeNodes(a: nat)
      requires Mem() && a in H().ln
      modifies Foot(), `trace
      ensures Mem() && H() == old(H()).(ln := old(H()).ln - {a}) && Fails() == old(Fails())
      ensures Quiet(old(trace), trace, Blocks(old(H())) - {NB(a)}, 0)
    {
      FreeN(H(), a);
      cnodes.Free(a);
      Log(GiveNodes(a));
      QuietPush(old(trace), Last(trace), Blocks(old(H())) - {NB(a)}, 0);
    }

    /** buddy_free2(poptrie->cleaves, a) */
    method FreeLeaves(a: nat)
      requires Mem() && a in H().ll
      modifies Foot(), `trace
      ensures Mem() && H() == old(H()).(ll := old(H()).ll - {a}) && Fails() == old(Fails())
      ensures Quiet(old(trace), trace, Blocks(old(H())) - {LB(a)}, 0)
    {
      FreeL(H(), a);
      cleaves.Free(a);
      Log(GiveLeaves(a));
      QuietPush(old(trace), Last(trace), Blocks(old(H())) - {LB(a)}, 0);
    }

    /** One node structure is stored. */
    method WriteNode(at: nat, nd: PNode)
      requires Mem() && at < |H().N|
      modifies nodes, `trace
      ensures Mem() && H() == old(H()).(N := old(H()).N[at := nd]) && Fails() == old(Fails())
      ensures trace == old(trace) + [Last(old(trace)).(h := H())]
    {
      hide Buddy.Valid, Chained, Small;
      ghost var m := nodes[..];
      nodes[at] := nd;
      assert nodes[..] == m[at := nd];
      Log(SetNode(at, nd));
    }

    /** One next hop is stored. */
    method WriteLeaf(at: nat, v: u16)
      requires Mem() && at < |H().L|
      modifies leaves, `trace
      ensures Mem() && H() == old(H()).(L := old(H()).L[at := v]) && Fails() == old(Fails())
      ensures trace == old(trace) + [Last(old(trace)).(h := H())]
    {
      hide Buddy.Valid, Chained, Small;
      ghost var m := leaves[..];
      leaves[at] := v;
      assert leaves[..] == m[at := v];
      Log(SetLeaf(at, v));
    }

    /** memcpy of node structures into the node arena, one by one. */
    method CopyNodes(a: nat, items: seq<PNode>)
      requires Mem() && a in H().ln && |items| <= Pow2(H().ln[a])
      modifies Foot(), `trace
      ensures a + |items| <= |old(H()).N|
      ensures Mem() && H() == old(H()).(N := Write(old(H()).N, a, items)) && Fails() == old(Fails())
      ensures Quiet(old(trace), trace, Blocks(old(H())) - {NB(a)}, 0)
    {
      hide Pow2, Blocks, Keeps, Mem, Fails, Write, Quiet, HeapOK;
      ghost var h, S := H(), Blocks(H()) - {NB(a)};
      MemHeap();
      MemTrace();
      WriteN(h, a, a, items);
      WriteNone(h.N, a);
      assert items[..0] == [];
      QuietSelf(trace, S);
      var i := 0;
      while i < |items|
        invariant 0 <= i <= |items| && Mem() && Fails() == old(Fails())
        invariant H() == h.(N := Write(h.N, a, items[..i])) && Quiet(old(trace), trace, S, 0)
        modifies nodes, `trace
      {
        ghost var t := trace;
        QuietEnd(old(trace), t, S, 0);
        WriteMore(h.N, a, items, i);
        WriteN(h, a, a, items[..i + 1]);
        WriteNode(a + i, items[i]);
        QuietOne(old(trace), t, trace, S);
        i := i + 1;
      }
      assert items[..i] == items;
    }

    /** Point a node structure at another child block, in place. */
    method StoreBase1(at: nat, base1: u32)
      requires Mem() && at < |H().N|
      modifies Foot(), `trace
      ensures Mem() && H() == old(H()).(N := old(H()).N[at := old(H()).N[at].(base1 := base1)])
      ensures Fails() == old(Fails())
      ensures trace == old(trace) + [Last(old(trace)).(h := H())]
    {
      WriteNode(at, nodes[at].(base1 := base1));
    }

    /** memcpy of next hops into the leaf arena, one by one. */
    method CopyLeaves(a: nat, items: seq<u16>)
      requires Mem() && a in H().ll && |items| <= Pow2(H().ll[a])
      modifies Foot(), `trace
      ensures a + |items| <= |old(H()).L|
      ensures Mem() && H() == old(H()).(L := Write(old(H()).L, a, items)) && Fails() == old(Fails())
      ensures Quiet(old(trace), trace, Blocks(old(H())) - {LB(a)}, 0)
    {
      hide Pow2, Blocks, Keeps, Mem, Fails, Write, Quiet, HeapOK;
      ghost var h, S := H(), Blocks(H()) - {LB(a)};
      MemHeap();
      MemTrace();
      WriteL(h, a, a, items);
      WriteNone(h.L, a);
      assert items[..0] == [];
      QuietSelf(trace, S);
      var i := 0;
      while i < |items|
        invariant 0 <= i <= |items| && Mem() && Fails() == old(Fails())
        invariant H() == h.(L := Write(h.L, a, items[..i])) && Quiet(old(trace), trace, S, 0)
        modifies leaves, `trace
      {
        ghost var t := trace;
        QuietEnd(old(trace), t, S, 0);
        WriteMore(h.L, a, items, i);
        WriteL(h, a, a, items[..i + 1]);
        WriteLeaf(a + i, items[i]);
        QuietOne(old(trace), t, trace, S);
        i := i + 1;
      }
      assert items[..i] == items;
    }

    /** A store to a direct entry: in the array in use it is seen at once. */
    method StoreDirect(d: array<u32>, i: nat, w: u32)
      requires Mem() && (d == dir || d == altdir) && i < d.Length
      modifies d, `trace
      ensures Mem() && d[..] == old(d[..])[i := w] && H() == old(H()) && Fails() == old(Fails())
      ensures trace == if d == dir then old(trace) + [Last(old(trace)).(ds := d[..])] else old(trace)
    {
      hide Arenas;
      ghost var m := d[..];
      d[i] := w;
      assert d[..] == m[i := w];
      if d == dir { Log(SetDirect(d[..])); }
    }

    /** The exchange of the two direct arrays. */
    method Exchange()
      requires Mem() && dir.Length == altdir.Length
      modifies `dir, `altdir, `trace
      ensures Mem() && dir == old(altdir) && altdir == old(dir)
      ensures trace == old(trace) + [Last(old(trace)).(ds := dir[..])]
    {
      hide Arenas;
      dir, altdir := altdir, dir;
      Log(SetDirect(dir[..]));
    }
  }

  lemma LiveBelow(m: Buddy, a: nat)
    requires m.Valid() && a in m.live
    ensures a < NONE
  {
    hide Buddy.Valid;
    LiveIsArena(m);
  }

  /** A refused request means a tight arena. */
  lemma Refused(m: Buddy, k: nat)
    requires m.Valid() && k <= 6 && m.level == m.sz && Small(m.live)
    requires k < m.level ==> forall r: nat :: !Unclaimed(m.live, m.links.Length, r, k)
    ensures Tight(m.live, m.links.Length)
  {
    if !Tight(m.live, m.links.Length) {
      Pow2At6();
      if m.sz <= 6 { Pow2Monotone(m.sz, 6); }
      var a := RequestMet(m, k);
    }
  }

  lemma WriteNone<X>(M: seq<X>, a: nat)
    requires a <= |M|
    ensures Write(M, a, []) == M
  {}

  /** One more write beside S. */
  lemma QuietOne(t0: seq<Moment>, t1: seq<Moment>, t2: seq<Moment>, S: set<Blk>)
    requires Quiet(t0, t1, S, 0) && |t2| == |t1| + 1 && t2[..|t1|] == t1
    requires Untouched(Last(t0), Last(t2), S) && Last(t2).asked <= Last(t1).asked
    ensures Quiet(t0, t2, S, 0)
  {
    hide Untouched;
    assert t2[..|t0|] == t2[..|t1|][..|t0|];
    forall j | |t0| <= j < |t2| ensures Untouched(Last(t0), t2[j], S) {
      if j < |t1| { assert t2[j] == t1[j]; }
    }
  }

  /** poptrie_init: empty arenas of 2^sz1 nodes and 2^sz0 leaves, every direct entry a leaf with
      next hop 0, and NULL as the only next hop. */
  method Init(sz1: nat, sz0: nat) returns (p: Poptrie)
    requires 1 <= sz1 <= 28 && 1 <= sz0 <= 28
    ensures p.Mem() && p.H().ln == map[] && p.H().ll == map[] && p.Apart() && p.Fails() == 0
    ensures fresh(p) && fresh(p.Foot()) && fresh(p.dir) && fresh(p.altdir) && fresh(p.entries)
    ensures p.dir.Length == p.altdir.Length == 0x4_0000
    ensures forall i :: 0 <= i < 0x4_0000 ==> p.dir[i] == 0x8000_0000
    ensures p.radix == null && p.entries.Length == 4096 && p.nhops == 1 && p.entries[0] == 0
    ensures p.shape == Empty && p.rib == Nil && p.idxs == map[] && p.own == map[]
    ensures p.es == seq(0x4_0000, i => TLeaf(0))
    ensures p.nodes.Length == Pow2(sz1) && p.leaves.Length == Pow2(sz0) && |p.trace| == 1 && Last(p.trace).asked == 0
  {
    hide Buddy.Valid, Pow2, Buddy.Repr, Separate, Poptrie.Mem, Poptrie.Arenas;
    var nodes, leaves, cnodes, cleaves := InitArenas(sz1, sz0);
    cnodes.Held();
    cleaves.Held();
    var dir := new u32[0x4_0000](_ => LEAF_TAG);
    var altdir := new u32[0x4_0000];
    var entries := new Hop[4096](_ => 0);
    p := new Poptrie(nodes, leaves, cnodes, cleaves, dir, altdir, entries);
    FreshArenas(p);
    FreshMem(p);
  }

  lemma FreshArenas(p: Poptrie)
    requires p.cnodes.Valid() && p.cleaves.Valid() && Separate(p.nodes, p.leaves, p.cnodes, p.cleaves)
    requires p.cnodes.live == map[] && p.cleaves.live == map[]
    requires p.cnodes.level == p.cnodes.sz && p.cleaves.level == p.cleaves.sz
    ensures p.Arenas()
  {}

  lemma FreshMem(p: Poptrie)
    requires p.Arenas() && p.Apart() && p.trace == [Moment(p.H(), p.dir[..], 0, p.Fails())]
    ensures p.Mem()
  {}

  method InitArenas(sz1: nat, sz0: nat)
    returns (nodes: array<PNode>, leaves: array<u16>, cnodes: Buddy, cleaves: Buddy)
    requires 1 <= sz1 <= 28 && 1 <= sz0 <= 28
    ensures cnodes.Valid() && cleaves.Valid() && Separate(nodes, leaves, cnodes, cleaves)
    ensures cnodes.live == map[] && cleaves.live == map[] && cnodes.failed == 0 && cleaves.failed == 0
    ensures cnodes.level == cnodes.sz == sz1 && cleaves.level == cleaves.sz == sz0
    ensures nodes.Length == Pow2(sz1) && leaves.Length == Pow2(sz0)
    ensures fresh({nodes, leaves} + cnodes.Repr() + cleaves.Repr())
  {
    hide Buddy.Valid, Pow2, Buddy.Repr;
    cnodes := new Buddy(sz1, sz1);
    cnodes.Held();
    cleaves := new Buddy(sz0, sz0);
    cleaves.Held();
    assert cnodes.Repr() !! cleaves.Repr();
    cnodes.Held();
    nodes := new PNode[Pow2(sz1)](_ => PNode(0, 0, 0, 0));
    leaves := new u16[Pow2(sz0)];
  }

  lemma WriteMore<X>(M: seq<X>, a: nat, items: seq<X>, i: nat)
    requires a + |items| <= |M| && i < |items|
    ensures Write(M, a, items[..i])[a + i := items[i]] == Write(M, a, items[..i + 1])
  {
    assert items[..i + 1] == items[..i] + [items[i]];
  }
}
