/** Sequences of calls after which the fast form is wrong, from the fresh table on: a change that the
    reuse test lets pass, an update that the early exit then loses, and one that replaces a leaf block
    beside the old children. */
module Wrong {
  import opened Bits
  import opened Arith
  import opened Rib
  import opened Trie
  import opened TrieUpdate
  import opened Overlook
  import opened Neatness
  import opened Radix
  import opened Store
  import opened Trace
  import opened Cost
  import opened PoptrieState
  import opened Entries
  import opened FibTable
  import opened Direct
  import opened Subtree
  import opened FastLookup
  import opened Refinement
  import opened TableShape
  import opened Routes
  import opened Specifics
  import opened Changes
  import opened Runs
  import opened Capacity
  import opened Calls

  // ----- addresses in 0.0.0.0/24

  lemma SmallAddress(p: u32)
    requires p < 256
    ensures Chunk(p, 0, 18) == 0 && Chunk(p, 18, 6) == 0 && Chunk(p, 24, 6) == p / 4
    ensures Top(p, 18) == 0 && Top(p, 24) == 0
    ensures Path(p, 24) == 0 && Path(p, 25) == p / 128 && Path(p, 31) == p / 2 && Path(p, 32) == p
    ensures Key(p, 24) == Prefix(0, 24) && Key(p, 25) == Prefix(p / 128, 25)
    ensures Key(p, 31) == Prefix(p / 2, 31) && Key(p, 32) == Prefix(p, 32)
  {
    hide Chunk, Top, Shr, Pow2;
    Pow2At6();
    Pow2Small();
    TopAt32(p);
    ShrIsDiv(p, 14);
    ShrIsDiv(p, 8);
    ShrIsDiv(p, 7);
    ShrIsDiv(p, 2);
    ShrIsDiv(p, 1);
    ShrIsDiv(p, 0);
    Quotient(p, Pow2(14), 0, p);
    TopStep(p, 18, 6);
    TopStep(p, 24, 6);
    Index18(p);
  }

  lemma Pow2Small()
    ensures Pow2(0) == 1 && Pow2(1) == 2 && Pow2(2) == 4 && Pow2(4) == 16 && Pow2(7) == 128 && Pow2(8) == 256
    ensures Pow2(14) > 256
  {
    Pow2Values();
    assert Pow2(4) == 16;
    Doubling(8);
    Pow2Monotone(9, 14);
  }

  /** Only prefixes of these lengths. */
  predicate Four(table: map<Prefix, u16>) {
    forall k :: k in table ==> k.len == 24 || k.len == 25 || k.len == 31 || k.len == 32
  }

  lemma {:induction false} BestDown(table: map<Prefix, u16>, a: nat, hi: nat, lo: nat)
    requires lo <= hi <= 32 && forall m :: lo < m <= hi ==> Key(a, m) !in table
    ensures Best(table, a, hi) == Best(table, a, lo)
  {
    hide Key;
    if lo < hi { BestDown(table, a, hi - 1, lo); }
  }

  /** The longest match in the upper half of 0.0.0.0/24. */
  lemma UpperBest(table: map<Prefix, u16>, a: u32)
    requires Four(table) && 128 <= a < 256 && Prefix(0, 24) in table && Prefix(1, 25) !in table
    ensures Best(table, a, 32) == Some(
              if Prefix(a, 32) in table then table[Prefix(a, 32)]
              else if Prefix(a / 2, 31) in table then table[Prefix(a / 2, 31)] else table[Prefix(0, 24)])
  {
    SmallAddress(a);
    hide Key;
    assert a / 128 == 1;
    if Prefix(a, 32) !in table {
      if Prefix(a / 2, 31) !in table {
        forall m | 24 < m <= 32 ensures Key(a, m) !in table { KeyLen(a, m); }
        BestDown(table, a, 32, 24);
      } else {
        BestDown(table, a, 32, 31);
      }
    }
  }

  lemma KeyLen(a: nat, m: nat)
    requires m <= 32
    ensures Key(a, m).len == m
  {}

  // ----- the node at depth 24

  /** The entry is a node whose first child is a node with the slots q. */
  ghost predicate Above(e: Slot, q: seq<Slot>) {
    e.Kid? && |e.t.slots| == 64 && |q| == 64 && e.t.slots[0] == Kid(Trie(q))
  }

  /** A block at depth 30 has the next hops of the four addresses below it. */
  lemma BlockAt(x: Slot, root: Cur, i: nat, j: nat)
    requires Tall(root) <= 32 && j < 64
    ensures Rebuild(x, SubN(root, i, 30)).slots[j] == Leaf(Val(root, 4 * i + j / 16))
  {
    hide SubN, Tall, IsLeaf;
    var c := SubN(root, i, 30);
    var k, r := j / 16, j % 16;
    RebuildAt(x, c, j);
    Pow2At6();
    Pow2Small();
    SubNCompose(root, i, 30, j, 6);
    SubNCompose(root, 4 * i + k, 32, r, 4);
    assert i * 64 + j == (4 * i + k) * 16 + r;
    SubNTall(root, 4 * i + k, 32);
    LeafIsTall0(SubN(root, 4 * i + k, 32));
    SubNLeaf(SubN(root, 4 * i + k, 32), r, 4);
  }

  /** What becomes of a slot at depth 30: a leaf when the four addresses agree, else a node. */
  lemma BlockBecomes(x: Slot, root: Cur, i: nat, v: u16)
    requires Tall(root) <= 32
    requires Val(root, 4 * i) == v
    ensures var n := Compress(Rebuild(x, SubN(root, i, 30)));
      if Val(root, 4 * i + 1) == Val(root, 4 * i + 2) == Val(root, 4 * i + 3) == v then n == Leaf(v) else n.Kid?
  {
    hide SubN, Val, Rebuild, Tall;
    var t := Rebuild(x, SubN(root, i, 30));
    forall j | 0 <= j < 64 ensures t.slots[j] == Leaf(Val(root, 4 * i + j / 16)) { BlockAt(x, root, i, j); }
    assert t.slots[0] == Leaf(Val(root, 4 * i + 0));
    assert t.slots[16] == Leaf(Val(root, 4 * i + 1));
    assert t.slots[32] == Leaf(Val(root, 4 * i + 2));
    assert t.slots[48] == Leaf(Val(root, 4 * i + 3));
    if Val(root, 4 * i + 1) == Val(root, 4 * i + 2) == Val(root, 4 * i + 3) == v {
      forall j | 0 <= j < 64 ensures t.slots[j] == Leaf(v) {
        var k := j / 16;
        assert k == 0 || k == 1 || k == 2 || k == 3;
      }
    }
  }

  lemma Positions(root: Cur, i: nat)
    requires i < 64
    ensures SubN(SubN(SubN(root, 0, 18), 0, 6), i, 6) == SubN(root, i, 30)
  {
    Pow2At6();
    SubNCompose(root, 0, 18, 0, 6);
    SubNCompose(root, 0, 24, i, 6);
  }

  /** The update of an entry for a prefix of 31 or 32 bits in 0.0.0.0/24. */
  lemma EntryPatched(e: Slot, q: seq<Slot>, root: Cur, p: u32, len: nat)
    requires Above(e, q) && p < 256 && 30 < len <= 32
    ensures var i := p / 4; var n := Compress(Rebuild(q[i], SubN(root, i, 30)));
      && (Overlooked(e, SubN(root, 0, 18), p, len, 18) <==> q[i].Leaf? && Stops(Trie(q), i, q[i], n, false))
      && (!Overlooked(e, SubN(root, 0, 18), p, len, 18) ==>
          var e' := UpdateEntry(e, SubN(root, 0, 18), p, len);
          e'.Kid? && |e'.t.slots| == 64 && e'.t.slots[0] == Compress(Trie(q[i := n])))
  {
    hide Chunk, SubN, Rebuild, Compress, Stops;
    SmallAddress(p);
    Pow2At6();
    Positions(root, p / 4);
    var c := SubN(root, 0, 18);
    var t := Trie(q);
    var i := p / 4;
    assert Overlooked(e, c, p, len, 18) == Overlooked(Kid(t), SubN(c, 0, 6), p, len, 24);
    assert Refresh(Kid(t), SubN(c, 0, 6), p, len, 24) ==
      Trie(q[i := Compress(Refresh(q[i], SubN(root, i, 30), p, len, 30))]);
    assert Refresh(q[i], SubN(root, i, 30), p, len, 30) == Rebuild(q[i], SubN(root, i, 30));
  }

  /** Two different slots, and the node stays. */
  lemma NodeStays(q: seq<Slot>, i: nat, j: nat)
    requires |q| == 64 && i < 64 && j < 64 && q[i] != q[j]
    ensures !Degenerate(Trie(q)) && Compress(Trie(q)) == Kid(Trie(q))
  {}

  // ----- the radix tree after an operation

  ghost function After(s: State, mode: Mode, prefix: u32, len: nat, n: u16): Cur
    requires len <= 32
  {
    Enter(Put(mode, s.rib, Path(prefix, len), len, Some(n)), 0)
  }

  /** The updated tree gives for every address what the new routes say. */
  lemma AfterVal(s: State, s': State, mode: Mode, prefix: u32, len: nat, n: u16, a: u32)
    requires Consistent(s) && PutStep(s, s', mode, prefix, len, Some(n))
    ensures len <= 32 && Tall(After(s, mode, prefix, len, n)) <= 32
    ensures Val(After(s, mode, prefix, len, n), a) == Val(Enter(s'.rib, 0), a)
    ensures Best(s'.idxs, a, 32).Some? ==> Val(Enter(s'.rib, 0), a) == Best(s'.idxs, a, 32).value
  {
    hide Fib, Holds, AllNeat, HopsBelow, Val, Put, Unmark, Refreshed, Publishes, Recorded, Best, Height, Tall, Path;
    PutStaysTall(mode, s.rib, prefix, len, Some(n));
    EnterPlain(Put(mode, s.rib, Path(prefix, len), len, Some(n)), 0);
    ValPlain(After(s, mode, prefix, len, n), a);
    PutStepKeeps(s, s', mode, prefix, len, Some(n));
    ValIsLpm(s'.rib, s'.idxs, a);
  }

  /** The first entry after the update of a prefix in 0.0.0.0/24. */
  lemma FirstEntry(s: State, s': State, mode: Mode, p: u32, len: nat, n: u16)
    requires PutStep(s, s', mode, p, len, Some(n)) && p < 256 && 18 <= len
    ensures len <= 32 && |s.es| == |s'.es| == DIRS
    ensures StripSlot(s'.es[0]) == UpdateEntry(StripSlot(s.es[0]), SubN(After(s, mode, p, len, n), 0, 18), p, len)
    ensures s'.idxs == s.idxs[KeyOf(p, len) := n]
  {
    hide Fib, Put, Unmark, Publishes, Recorded, UpdateEntry, SubN, StripSlot, Path, Lo, Top;
    SmallAddress(p);
    assert Covered(p, len, 0) by { CoversFirst(p, len); }
  }

  lemma CoversFirst(p: u32, len: nat)
    requires 18 <= len && Top(p, 18) == 0
    ensures Covered(p, len, 0)
  {
    Pow2Zero();
  }

  /** The answer to an address in 0.0.0.0/24 is in the node at depth 24. */
  lemma AnswerIn(s: State, q: seq<Slot>, a: u32)
    requires Consistent(s) && |s.es| == DIRS && Above(StripSlot(s.es[0]), q) && a < 256 && q[a / 4].Leaf?
    ensures FastIndex(s.h, s.ds, a) == q[a / 4].v
  {
    hide Holds, HopsBelow, Height, Recorded, Fib, EntryAt, AllNeat, Look, Chunk, StripSlot, FastIndex;
    SmallAddress(a);
    FibEntry(s.h, s.ds, s.es, s.own, 0);
    EntryLook(s.h, s.ds, a, s.es[0]);
    var e := StripSlot(s.es[0]);
    LookSlot(e.t, a, 18, 0);
    LookSlot(Trie(q), a, 24, a / 4);
    LookLeaf(q[a / 4], a, 30);
  }

  lemma LookLeaf(x: Slot, a: u32, d: nat)
    requires x.Leaf?
    ensures Look(x, a, d) == x.v
  {}

  // ----- the routes of the first steps

  ghost predicate Distinct(hops: seq<Hop>) {
    forall i, j :: 0 <= i < j < |hops| ==> hops[i] != hops[j]
  }

  lemma DistinctAfter(hops: seq<Hop>, h: Hop)
    requires Distinct(hops)
    ensures Distinct(HopsAfter(hops, h)) && hops <= HopsAfter(hops, h) && |HopsAfter(hops, h)| <= |hops| + 1
  {}

  /** The index behind a next hop is the next hop's place in the table. */
  lemma PutHop(s: State, s': State, mode: Mode, prefix: u32, len: nat, n: u16, h: Hop)
    requires Consistent(s) && PutStep(s, s', mode, prefix, len, Some(n))
    requires RoutesOf(s') == RoutesOf(s)[KeyOf(prefix, len) := h]
    ensures n < |s'.hops| && s'.hops[n] == h
  {
    hide KeyOf, Refreshed, Fib, Put, Unmark, Publishes, AllNeat, HopsBelow, Holds, Recorded;
    NamedMore(s.idxs, s.hops, s'.hops);
    NamedPut(s.idxs, s'.hops, KeyOf(prefix, len), Some(n));
    assert RoutesOf(s')[KeyOf(prefix, len)] == h;
  }

  /** A consistent snapshot with room for another next hop. */
  ghost predicate Going(s: State) {
    Consistent(s) && Distinct(s.hops) && |s.hops| < FIB_SIZE - 8
  }

  /** What is known after a step that put h at the prefix. */
  ghost predicate Puts(s: State, s': State, mode: Mode, p: u32, len: nat, n: u16, h: Hop) {
    && Consistent(s') && Distinct(s'.hops) && s.hops <= s'.hops && |s'.hops| <= |s.hops| + 1
    && PutStep(s, s', mode, p, len, Some(n)) && n < |s'.hops| && s'.hops[n] == h
  }

  lemma AddPuts(s: State, s': State, p: u32, len: nat, h: Hop) returns (n: u16)
    requires Going(s) && 18 <= len <= 32 && Performs(s, s', Add(p, len, h)) && KeyOf(p, len) !in s.idxs
    ensures Puts(s, s', Adding, p, len, n, h)
  {
    hide PutStep, Publishes, RangeFresh, Sound, Consistent, KeyOf, HopStep, Named, AnsweredFrom, Distinct;
    AddsRoute(s);
    DistinctAfter(s.hops, h);
    var sw: nat, ret: int :| AddOutcome(s, s', sw, ret, p, len, h);
    n :| PutStep(s, s', Adding, p, len, Some(n));
    PutStepKeeps(s, s', Adding, p, len, Some(n));
    PutHop(s, s', Adding, p, len, n, h);
  }

  lemma AddsRoute(s: State)
    requires Consistent(s)
    ensures forall k :: k in s.idxs <==> k in RoutesOf(s)
    ensures forall k :: k in s.idxs ==> s.idxs[k] < |s.hops| && RoutesOf(s)[k] == s.hops[s.idxs[k]]
  {
    hide Fib, Holds, AllNeat, HopsBelow, Recorded, Height;
  }

  lemma ChangePuts(s: State, s': State, p: u32, len: nat, h: Hop) returns (n: u16)
    requires Going(s) && 18 <= len <= 32 && Performs(s, s', Change(p, len, h)) && KeyOf(p, len) in s.idxs
    requires s.idxs[KeyOf(p, len)] < |s.hops| && s.hops[s.idxs[KeyOf(p, len)]] != h
    ensures Puts(s, s', Changing, p, len, n, h)
  {
    hide PutStep, Publishes, RangeFresh, Sound, Consistent, KeyOf, HopStep, Named, Agree, ReuseRight, NoHalfRoute,
         Distinct;
    AddsRoute(s);
    DistinctAfter(s.hops, h);
    var ret: int :| ChangeOutcome(s, s', ret, p, len, h);
    n :| SetOutcome(s, s', p, len, Some(n));
    PutStepKeeps(s, s', Changing, p, len, Some(n));
    PutHop(s, s', Changing, p, len, n, h);
  }

  lemma SameIndex(hops: seq<Hop>, i: nat, j: nat)
    requires Distinct(hops) && i < |hops| && j < |hops|
    ensures hops[i] == hops[j] <==> i == j
  {}

  // ----- the change that goes wrong

  lemma HalfOf64(i: nat)
    requires i < 64
    ensures Bit(i, 5) <==> i >= 32
  {
    assert Bit(i, 5) == Bit(i / 2, 4) == Bit(i / 2 / 2, 3) == Bit(i / 2 / 2 / 2, 2) == Bit(i / 2 / 2 / 2 / 2, 1);
  }

  /** The positions below a /24 with its left half. */
  lemma PairAt(a: u16, b: u16, i: nat)
    requires i < 64
    ensures var v := if i < 32 then b else a;
      SubN(Enter(Pair(a, false, Some(b)), 0), i, 6) == Cur(Nil, Nil, v)
  {
    HalfOf64(i);
    var c := Enter(Pair(a, false, Some(b)), 0);
    SubNHead(c, i, 5);
    SubNLeaf(Down(c, Bit(i, 5)), i, 5);
  }

  lemma PairNode(x: Slot, a: u16, b: u16, n: nat)
    requires a != b && TracksSlot(x, Enter(Pair(a, false, Some(b)), 0)) && Neat(x, Enter(Pair(a, false, Some(b)), 0), n)
    ensures x.Kid? && |x.t.slots| == 64 && forall i :: 0 <= i < 64 ==> x.t.slots[i] == Leaf(if i < 32 then b else a)
  {
    hide SubN, Const;
    var c := Enter(Pair(a, false, Some(b)), 0);
    if x.Leaf? {
      ConstLeaf(Down(c, true), x.v);
      ConstLeaf(Down(c, false), x.v);
      ConstSplit(c, x.v);
    }
    forall i | 0 <= i < 64 ensures x.t.slots[i] == Leaf(if i < 32 then b else a) {
      PairAt(a, b, i);
      assert TracksSlot(x.t.slots[i], SubN(c, i, 6)) && Neat(x.t.slots[i], SubN(c, i, 6), n);
      ConstLeaf(SubN(c, i, 6), x.t.slots[i].v);
    }
  }

  /** The node of the /24 after its change: kept, with the old next hop in its right half. */
  lemma StaleNode(s2: State, s3: State, a: u16, b: u16, c: u16) returns (q: seq<Slot>)
    requires Sound(s2) && a != b && s2.rib == Chain(24, Pair(a, false, Some(b)))
    requires PutStep(s2, s3, Changing, 0, 24, Some(c))
    ensures |s3.es| == DIRS && Above(StripSlot(s3.es[0]), q)
    ensures forall i :: 0 <= i < 64 ==> q[i] == Leaf(if i < 32 then b else a)
  {
    hide Fib, Holds, HopsBelow, Recorded, Publishes, SubN, Rebuild, StripSlot, Put, Unmark, UpdateEntry, Neat, Chain,
         Pair, NeatEntry, TracksEntry, Tracking, AllNeat;
    PathOfZero();
    FirstEntry(s2, s3, Changing, 0, 24, c);
    OneChanged(a, b, c);
    TrackingAt(s2.es, Enter(s2.rib, 0), 0);
    AllNeatAt(s2.es, Enter(s2.rib, 0), |s2.hops|, 0);
    q := StaleKept(StripSlot(s2.es[0]), a, b, c, |s2.hops|);
  }

  lemma StaleKept(o: Slot, a: u16, b: u16, c: u16, n: nat) returns (q: seq<Slot>)
    requires a != b
    requires TracksEntry(o, SubN(Enter(Chain(24, Pair(a, false, Some(b))), 0), 0, 18))
    requires NeatEntry(o, SubN(Enter(Chain(24, Pair(a, false, Some(b))), 0), 0, 18), n)
    ensures Above(UpdateEntry(o, SubN(Enter(Chain(24, Pair(c, true, Some(b))), 0), 0, 18), 0, 24), q)
    ensures forall i :: 0 <= i < 64 ==> q[i] == Leaf(if i < 32 then b else a)
  {
    hide SubN, Rebuild, Uniform, UpdateEntry;
    var n0, n1 := Pair(a, false, Some(b)), Pair(c, true, Some(b));
    var c0, c1 := Enter(Chain(6, n0), 0), Enter(Chain(6, n1), 0);
    SubNChain(24, n0, 18);
    SubNChain(24, n1, 18);
    SubNChain(6, n0, 6);
    SubNChain(6, n1, 6);
    var s0 := Enter(n0, 0);
    ShortSeen(o, c1, 0, 24);
    NotUniform(o, c0, s0, a, b);
    RebuildAt(o, c1, 0);
    var x := o.t.slots[0];
    assert TracksSlot(x, s0) && Neat(x, s0, n);
    PairNode(x, a, b, n);
    q := x.t.slots;
    var t := Rebuild(o, c1);
    assert t.slots[0] == x;
  }

  /** The fresh table, 0.0.0.0/24 to h1, 0.0.0.0/25 to h2, and the /24 changed to h3. */
  function Spoil(h1: Hop, h2: Hop, h3: Hop): seq<Op> { [Add(0, 24, h1), Add(0, 25, h2), Change(0, 24, h3)] }

  /** After it: the two routes have the indices c and b, the node of the /24 the leaves b and a. */
  ghost predicate Spoilt(s: State, a: u16, b: u16, c: u16, h1: Hop, h3: Hop, q: seq<Slot>) {
    && Consistent(s) && Distinct(s.hops) && |s.hops| <= 4 && a != b && a != c
    && a < |s.hops| && s.hops[a] == h1 && c < |s.hops| && s.hops[c] == h3
    && s.idxs == Table0(b, c)
    && |s.es| == DIRS && Above(StripSlot(s.es[0]), q)
    && forall i :: 0 <= i < 64 ==> q[i] == Leaf(if i < 32 then b else a)
  }

  lemma PutRib(s: State, s': State, mode: Mode, p: u32, len: nat, n: u16)
    requires PutStep(s, s', mode, p, len, Some(n)) && len <= 32
    ensures s'.rib == Unmark(Put(mode, s.rib, Path(p, len), len, Some(n)))
    ensures s'.idxs == s.idxs[KeyOf(p, len) := n]
  {
    hide Fib, Refreshed, Publishes, Recorded;
  }

  lemma KeyIs(p: u32, len: nat)
    requires len <= 32
    ensures KeyOf(p, len) == Prefix(Path(p, len), len)
  {}

  lemma Spoils(s0: State, s1: State, s2: State, s3: State, h1: Hop, h2: Hop, h3: Hop)
    returns (a: u16, b: u16, c: u16, q: seq<Slot>)
    requires Initial(s0) && h1 != h2 && h1 != h3
    requires Performs(s0, s1, Add(0, 24, h1)) && Performs(s1, s2, Add(0, 25, h2))
    requires Performs(s2, s3, Change(0, 24, h3))
    ensures Spoilt(s3, a, b, c, h1, h3, q)
  {
    hide Performs, PutStep, Sound, Consistent, RangeFresh, Put, Unmark, Pair, KeyOf, Fib, Recorded, Path;
    PathOfZero();
    KeyIs(0, 24);
    KeyIs(0, 25);
    InitialSound(s0);
    SoundParts(s0);
    a := AddPuts(s0, s1, 0, 24, h1);
    PutRib(s0, s1, Adding, 0, 24, a);
    b := AddPuts(s1, s2, 0, 25, h2);
    PutRib(s1, s2, Adding, 0, 25, b);
    SameIndex(s2.hops, a, b);
    AddSound(s0, s1, 0, 24, Some(a));
    AddSound(s1, s2, 0, 25, Some(b));
    TwoAdded(a, b);
    c := ChangePuts(s2, s3, 0, 24, h3);
    PutRib(s2, s3, Changing, 0, 24, c);
    SameIndex(s3.hops, a, c);
    q := StaleNode(s2, s3, a, b, c);
    assert s3.idxs == map[Prefix(0, 24) := c, Prefix(0, 25) := b];
  }

  /** What the longest match is worth. */
  lemma LongestIs(s: State, a: u32, v: u16)
    requires Consistent(s) && Best(s.idxs, a, 32) == Some(v)
    ensures v < |s.hops| && NextHop(RoutesOf(s), a) == s.hops[v] && Val(Enter(s.rib, 0), a) == v
  {
    hide Fib, Holds, AllNeat, HopsBelow, Val, Recorded, Best, Height, NextHop, Named;
    RibAnswers(s, a);
    ValIsLpm(s.rib, s.idxs, a);
  }

  /** The longest match of 0.0.0.128 is the /24, whose next hop is now h3; the lookup finds h1. */
  lemma StaleAnswer(s: State, a: u16, b: u16, c: u16, h1: Hop, h3: Hop, q: seq<Slot>)
    requires Spoilt(s, a, b, c, h1, h3, q)
    ensures FastIndex(s.h, s.ds, 128) == a && NextHop(RoutesOf(s), 128) == h3
  {
    hide Consistent, NextHop, Best, FastIndex, StripSlot, Distinct;
    UpperBest(s.idxs, 128);
    LongestIs(s, 128, c);
    AnswerIn(s, q, 128);
  }

  // ----- one more addition below the changed route

  /** The longest matches of the four addresses in block i. */
  function BlockOf(table: map<Prefix, u16>, i: nat): seq<Option<u16>> {
    [Best(table, 4 * i, 32), Best(table, 4 * i + 1, 32), Best(table, 4 * i + 2, 32), Best(table, 4 * i + 3, 32)]
  }

  function Alike(v: u16): seq<Option<u16>> { [Some(v), Some(v), Some(v), Some(v)] }

  /** A prefix of 31 or 32 bits is added in 0.0.0.0/24: what happens to its slot of the node at depth 24,
      by the next hops of the four addresses there. */
  lemma OneMore(s: State, s': State, p: u32, len: nat, n: u16, h: Hop, q: seq<Slot>, v: u16) returns (x: Slot)
    requires Consistent(s) && |s.es| == DIRS && Above(StripSlot(s.es[0]), q) && Puts(s, s', Adding, p, len, n, h)
    requires p < 256 && 30 < len
    requires BlockOf(s'.idxs, p / 4)[0] == Some(v) && None !in BlockOf(s'.idxs, p / 4)
    ensures len <= 32 && |s'.es| == DIRS
    ensures if BlockOf(s'.idxs, p / 4) == Alike(v) then x == Leaf(v) else x.Kid?
    ensures Overlooked(StripSlot(s.es[0]), SubN(After(s, Adding, p, len, n), 0, 18), p, len, 18) <==>
      q[p / 4].Leaf? && Stops(Trie(q), p / 4, q[p / 4], x, false)
    ensures if q[p / 4].Leaf? && Stops(Trie(q), p / 4, q[p / 4], x, false)
      then StripSlot(s'.es[0]) == StripSlot(s.es[0])
      else var e := StripSlot(s'.es[0]);
        e.Kid? && |e.t.slots| == 64 && e.t.slots[0] == Compress(Trie(q[p / 4 := x]))
  {
    hide PutStep, Consistent, Best, StripSlot, Stops, Compress, SubN, Put, After, Overlooked, Distinct, Rebuild,
         RefreshEntry, Val, Tall;
    FirstEntry(s, s', Adding, p, len, n);
    var root, i := After(s, Adding, p, len, n), p / 4;
    var B := BlockOf(s'.idxs, i);
    assert B[0].Some? && B[1].Some? && B[2].Some? && B[3].Some?;
    AfterVal(s, s', Adding, p, len, n, 4 * i);
    AfterVal(s, s', Adding, p, len, n, 4 * i + 1);
    AfterVal(s, s', Adding, p, len, n, 4 * i + 2);
    AfterVal(s, s', Adding, p, len, n, 4 * i + 3);
    EntryPatched(StripSlot(s.es[0]), q, root, p, len);
    BlockBecomes(q[i], root, i, v);
    x := Compress(Rebuild(q[i], SubN(root, i, 30)));
  }

  /** What the routes of 31 bits and the /24 say for half a block. */
  function HalfBlock(table: map<Prefix, u16>, j: nat): Option<u16> {
    if Prefix(j, 31) in table then Some(table[Prefix(j, 31)])
    else if Prefix(0, 24) in table then Some(table[Prefix(0, 24)]) else None
  }

  /** Block i of the upper half of 0.0.0.0/24, where routes of 32 bits say nothing else. */
  predicate Says(table: map<Prefix, u16>, i: nat, v0: u16, v1: u16) {
    && Four(table) && Prefix(0, 24) in table && Prefix(1, 25) !in table
    && HalfBlock(table, 2 * i) == Some(v0) && HalfBlock(table, 2 * i + 1) == Some(v1)
    && (Prefix(4 * i, 32) in table ==> table[Prefix(4 * i, 32)] == v0)
    && (Prefix(4 * i + 1, 32) in table ==> table[Prefix(4 * i + 1, 32)] == v0)
    && (Prefix(4 * i + 2, 32) in table ==> table[Prefix(4 * i + 2, 32)] == v1)
    && (Prefix(4 * i + 3, 32) in table ==> table[Prefix(4 * i + 3, 32)] == v1)
  }

  /** The longest matches of its four addresses. */
  lemma BlockIs(table: map<Prefix, u16>, i: nat, v0: u16, v1: u16)
    requires 32 <= i < 64 && Says(table, i, v0, v1)
    ensures BlockOf(table, i) == [Some(v0), Some(v0), Some(v1), Some(v1)]
  {
    hide Best, Four;
    UpperBest(table, 4 * i);
    UpperBest(table, 4 * i + 1);
    UpperBest(table, 4 * i + 2);
    UpperBest(table, 4 * i + 3);
    assert (4 * i + 1) / 2 == 2 * i && (4 * i + 3) / 2 == 2 * i + 1;
  }

  /** A new route of 31 or 32 bits. */
  lemma NewRoute(s: State, s': State, p: u32, len: nat, h: Hop) returns (n: u16)
    requires Consistent(s) && Distinct(s.hops) && |s.hops| <= 8 && p < 256 && 30 < len <= 32
    requires Prefix(if len == 31 then p / 2 else p, len) !in s.idxs && Performs(s, s', Add(p, len, h))
    ensures Puts(s, s', Adding, p, len, n, h)
    ensures s'.idxs == s.idxs[Prefix(if len == 31 then p / 2 else p, len) := n]
  {
    hide Performs, PutStep, Consistent, KeyOf, Path, Distinct;
    SmallAddress(p);
    KeyIs(p, len);
    n := AddPuts(s, s', p, len, h);
    PutRib(s, s', Adding, p, len, n);
  }

  // ----- an update that the early exit loses

  /** And then 0.0.0.248/31 and 0.0.0.250/31 to h4, and 0.0.0.252/32 to h3. */
  function Lose(h1: Hop, h2: Hop, h3: Hop, h4: Hop): seq<Op> {
    Spoil(h1, h2, h3) + [Add(248, 31, h4), Add(250, 31, h4), Add(252, 32, h3)]
  }

  function Table0(b: u16, c: u16): map<Prefix, u16> { map[Prefix(0, 24) := c, Prefix(0, 25) := b] }

  function Table1(b: u16, c: u16, d: u16): map<Prefix, u16> { Table0(b, c)[Prefix(124, 31) := d] }

  function Table2(b: u16, c: u16, d: u16): map<Prefix, u16> { Table1(b, c, d)[Prefix(125, 31) := d] }

  function Table3(b: u16, c: u16, d: u16): map<Prefix, u16> { Table2(b, c, d)[Prefix(252, 32) := c] }

  lemma SayOne(b: u16, c: u16, d: u16)
    ensures Says(Table1(b, c, d), 62, d, c)
  {}

  lemma SayTwo(b: u16, c: u16, d: u16)
    ensures Says(Table2(b, c, d), 62, d, d)
  {}

  lemma SayThree(b: u16, c: u16, d: u16)
    ensures Says(Table3(b, c, d), 63, c, c) && Table3(b, c, d)[Prefix(0, 24)] == c
  {}

  lemma SayReleaf(b: u16, c: u16)
    ensures Says(Table0(b, c)[Prefix(130, 32) := c], 32, c, c)
  {}

  /** The node of the /24 below entry 0 has the slots q. */
  ghost predicate Node24(s: State, q: seq<Slot>) {
    |s.es| == DIRS && Above(StripSlot(s.es[0]), q)
  }

  /** The first addition makes a node of slot 62. */
  lemma LoseOne(s: State, s': State, b: u16, c: u16, d: u16, h: Hop, q: seq<Slot>) returns (x: Slot)
    requires Consistent(s) && Node24(s, q) && Puts(s, s', Adding, 248, 31, d, h) && d != c && q[0] != q[63]
    requires s'.idxs == Table1(b, c, d)
    ensures x.Kid? && Node24(s', q[62 := x])
  {
    hide Puts, Consistent, StripSlot, Overlooked, Compress, BlockOf, Says, SubN, Table1, After;
    SayOne(b, c, d);
    BlockIs(s'.idxs, 62, d, c);
    x := OneMore(s, s', 248, 31, d, h, q, d);
    NodeStays(q[62 := x], 0, 63);
  }

  /** The second one a leaf again. */
  lemma LoseTwo(s: State, s': State, b: u16, c: u16, d: u16, h: Hop, q: seq<Slot>)
    requires Consistent(s) && Node24(s, q) && Puts(s, s', Adding, 250, 31, d, h) && q[62].Kid? && q[0] != q[63]
    requires s'.idxs == Table2(b, c, d)
    ensures Node24(s', q[62 := Leaf(d)])
  {
    hide Puts, Consistent, StripSlot, Overlooked, Compress, BlockOf, Says, SubN, Table2, After;
    SayTwo(b, c, d);
    BlockIs(s'.idxs, 62, d, d);
    var x := OneMore(s, s', 250, 31, d, h, q, d);
    NodeStays(q[62 := x], 0, 63);
  }

  /** The third one meets the early exit: the leaf a of slot 63 should become c, and stands between the
      leaf d and the end of the node. */
  lemma LoseThree(s: State, s': State, a: u16, b: u16, c: u16, d: u16, h: Hop, q: seq<Slot>)
    requires Consistent(s) && Node24(s, q) && Puts(s, s', Adding, 252, 32, c, h) && a != c && d != a && d != c
    requires s'.idxs == Table3(b, c, d) && q[62] == Leaf(d) && q[63] == Leaf(a)
    ensures |s.es| == DIRS
    ensures Overlooked(StripSlot(s.es[0]), SubN(After(s, Adding, 252, 32, c), 0, 18), 252, 32, 18)
    ensures Node24(s', q)
  {
    hide Puts, Consistent, StripSlot, Overlooked, Compress, BlockOf, Says, SubN, Table3, After, SameRuns, Degenerate;
    SayThree(b, c, d);
    BlockIs(s'.idxs, 63, c, c);
    var x := OneMore(s, s', 252, 32, c, h, q, c);
    NeighboursDecide(q, 63, c);
    assert LeafBefore(q, 63) == Some(d) && LeafAfter(q, 64) == None;
    NodeStays(q[63 := Leaf(c)], 62, 63);
  }

  /** The lost update: its own address is still answered with h1. */
  lemma LostAnswer(ss: seq<State>, h1: Hop, h2: Hop, h3: Hop, h4: Hop) returns (e: u16)
    requires AllProper(Lose(h1, h2, h3, h4)) && Performed(ss, Lose(h1, h2, h3, h4)) && Initial(ss[0])
    requires h1 != h2 && h1 != h3 && h4 != h1 && h4 != h3
    ensures |ss[5].es| == DIRS
    ensures Overlooked(StripSlot(ss[5].es[0]), SubN(After(ss[5], Adding, 252, 32, e), 0, 18), 252, 32, 18)
    ensures FastIndex(ss[6].h, ss[6].ds, 252) < |ss[6].hops| && ss[6].hops[FastIndex(ss[6].h, ss[6].ds, 252)] == h1
    ensures NextHop(RoutesOf(ss[6]), 252) == h3
  {
    hide Performs, PutStep, Consistent, Best, StripSlot, Overlooked, Distinct, NextHop, FastIndex, Initial, RoutesOf,
         After, SubN;
    var ops := Lose(h1, h2, h3, h4);
    assert Performs(ss[0], ss[1], ops[0]) && Performs(ss[1], ss[2], ops[1]) && Performs(ss[2], ss[3], ops[2]);
    assert Performs(ss[3], ss[4], ops[3]) && Performs(ss[4], ss[5], ops[4]) && Performs(ss[5], ss[6], ops[5]);
    var a, b, c, q := Spoils(ss[0], ss[1], ss[2], ss[3], h1, h2, h3);
    var d := NewRoute(ss[3], ss[4], 248, 31, h4);
    SameIndex(ss[4].hops, d, c);
    SameIndex(ss[4].hops, d, a);
    var x := LoseOne(ss[3], ss[4], b, c, d, h4, q);
    var d' := NewRoute(ss[4], ss[5], 250, 31, h4);
    SameIndex(ss[5].hops, d, d');
    LoseTwo(ss[4], ss[5], b, c, d, h4, q[62 := x]);
    assert q[62 := x][62 := Leaf(d)] == q[62 := Leaf(d)];
    var c' := NewRoute(ss[5], ss[6], 252, 32, h3);
    SameIndex(ss[6].hops, c, c');
    e := c;
    LoseThree(ss[5], ss[6], a, b, c, d, h3, q[62 := Leaf(d)]);
    SayThree(b, c, d);
    UpperBest(ss[6].idxs, 252);
    LongestIs(ss[6], 252, c);
    AnswerIn(ss[6], q[62 := Leaf(d)], 252);
  }

  // ----- an update that replaces a leaf block beside the old children

  /** And instead 0.0.0.130/32 to h3. */
  function Releaf(h1: Hop, h2: Hop, h3: Hop): seq<Op> { Spoil(h1, h2, h3) + [Add(130, 32, h3)] }

  lemma ReleafOne(s: State, s': State, a: u16, b: u16, c: u16, h: Hop, q: seq<Slot>)
    requires Consistent(s) && Node24(s, q) && Puts(s, s', Adding, 130, 32, c, h) && a != c && a != b
    requires s'.idxs == Table0(b, c)[Prefix(130, 32) := c]
    requires q[0] == Leaf(b) && q[32] == Leaf(a) && q[33] == Leaf(a)
    ensures Releafs(Trie(q), 32, q[32], Leaf(c), false) && Node24(s', q[32 := Leaf(c)])
  {
    hide Puts, Consistent, StripSlot, Overlooked, Compress, BlockOf, Says, SubN, Table0, After, SameRuns, Degenerate;
    SayReleaf(b, c);
    BlockIs(s'.idxs, 32, c, c);
    var x := OneMore(s, s', 130, 32, c, h, q, c);
    NeighboursDecide(q, 32, c);
    assert LeafAfter(q, 33) == Some(a);
    NodeStays(q[32 := Leaf(c)], 0, 33);
  }

  /** The leaf a of slot 32 becomes c, between the leaves b and a: the leaf vector changes, the children
      do not.  The addresses of the slot are answered rightly after it, those beside it are not. */
  lemma ReleafAnswer(ss: seq<State>, h1: Hop, h2: Hop, h3: Hop) returns (a: u16, c: u16, q: seq<Slot>)
    requires AllProper(Releaf(h1, h2, h3)) && Performed(ss, Releaf(h1, h2, h3)) && Initial(ss[0])
    requires h1 != h2 && h1 != h3
    ensures |ss[3].es| == DIRS && Above(StripSlot(ss[3].es[0]), q)
    ensures Releafs(Trie(q), 32, q[32], Leaf(c), false)
    ensures |ss[4].es| == DIRS && Above(StripSlot(ss[4].es[0]), q[32 := Leaf(c)])
    ensures a < |ss[4].hops| && ss[4].hops[a] == h1 && c < |ss[4].hops| && ss[4].hops[c] == h3
    ensures FastIndex(ss[4].h, ss[4].ds, 130) == c && NextHop(RoutesOf(ss[4]), 130) == h3
    ensures FastIndex(ss[4].h, ss[4].ds, 132) == a && NextHop(RoutesOf(ss[4]), 132) == h3
  {
    hide Performs, BlockOf, Four, Says, PutStep, Consistent, Best, StripSlot, Overlooked, Distinct, NextHop,
         FastIndex, Initial, RoutesOf, After, SubN, SameRuns, Degenerate, KeyOf, Path, Compress;
    var ops := Releaf(h1, h2, h3);
    assert Performs(ss[0], ss[1], ops[0]) && Performs(ss[1], ss[2], ops[1]) && Performs(ss[2], ss[3], ops[2]);
    assert Performs(ss[3], ss[4], ops[3]);
    var b;
    a, b, c, q := Spoils(ss[0], ss[1], ss[2], ss[3], h1, h2, h3);
    var e := NewRoute(ss[3], ss[4], 130, 32, h3);
    SameIndex(ss[4].hops, c, e);
    ReleafOne(ss[3], ss[4], a, b, c, h3, q);
    SayReleaf(b, c);
    UpperBest(ss[4].idxs, 130);
    UpperBest(ss[4].idxs, 132);
    LongestIs(ss[4], 130, c);
    LongestIs(ss[4], 132, c);
    AnswerIn(ss[4], q[32 := Leaf(c)], 130);
    AnswerIn(ss[4], q[32 := Leaf(c)], 132);
  }

  // ----- the calls

  lemma {:induction false} HopsGrow(t: Known, ops: seq<Op>)
    requires AllProper(ops)
    ensures |ApplyAll(t, ops).hops| <= |t.hops| + |ops|
  {
    if ops != [] { HopsGrow(t, ops[..|ops| - 1]); }
  }

  lemma RoomEarly(t: Known, ops: seq<Op>)
    requires AllProper(ops) && |t.hops| + |ops| < FIB_SIZE
    ensures RoomAll(t, ops)
  {
    forall i | 0 <= i < |ops| ensures Room(ApplyAll(t, ops[..i]), ops[i]) { HopsGrow(t, ops[..i]); }
  }

  lemma NoObjs()
    ensures Objs(Empty) == {}
  {}

  /** Arenas of 2^19 units have room for eight operations. */
  lemma RoomForEight(sz1: nat, sz0: nat, count: nat)
    requires 19 <= sz1 && 19 <= sz0 && count <= 33 * 8
    ensures Ample(Pow2(sz1), Pow2(sz0), count)
  {
    Pow2Monotone(19, sz1);
    Pow2Monotone(19, sz0);
    Pow2Small();
    PowersAdd(8, 8);
    PowersAdd(16, 3);
    assert Pow2(3) == 8;
  }

  /** Up to eight operations on the fresh table. */
  method FromFresh(sz1: nat, sz0: nat, ops: seq<Op>) returns (p: Poptrie, ghost ss: seq<State>)
    requires 1 <= sz1 <= 28 && 1 <= sz0 <= 28 && AllProper(ops) && |ops| <= 8
    ensures 19 <= sz1 && 19 <= sz0 ==> p.Fails() == 0
    ensures p.Fails() == 0 ==>
      Kept(p) && |ss| == |ops| + 1 && Initial(ss[0]) && Performed(ss, ops) && ss[|ops|] == Snap(p)
  {
    hide Poptrie.Mem, Poptrie.Fails, Poptrie.Foot, Objs, Kept, Valid, Initial, Performs, Run, RightRun, Answers, Fib,
         Blocks, Extends, RoomAll, GentleAll, ApplyAll, Proper, Hops, Pow2, Ample, Named;
    p := Create(sz1, sz0);
    NoObjs();
    ValidKept(p);
    FreshKnown(p);
    FreshRoom(p, sz1, sz0, |ops|);
    RoomEarly(KnownOf(p), ops);
    var done;
    done, ss := Execute(p, ops);
  }

  lemma FreshRoom(p: Poptrie, sz1: nat, sz0: nat, n: nat)
    requires p.Mem() && |p.H().N| == Pow2(sz1) && |p.H().L| == Pow2(sz0) && p.rib == Nil && n <= 8
    ensures 19 <= sz1 && 19 <= sz0 ==> Roomy(p, n)
  {
    hide Poptrie.Mem, Pow2, Ample;
    p.MemHeap();
    if 19 <= sz1 && 19 <= sz0 { RoomForEight(sz1, sz0, 33 * n); }
  }

  lemma ValidKept(p: Poptrie)
    requires Valid(p)
    ensures Kept(p) && p.Mem()
  {}

  lemma FreshKnown(p: Poptrie)
    requires Initial(Snap(p))
    ensures |KnownOf(p).hops| == 1
  {
    hide Fib, Recorded;
  }

  lemma OpsProper(h1: Hop, h2: Hop, h3: Hop, h4: Hop)
    ensures AllProper(Spoil(h1, h2, h3)) && AllProper(Lose(h1, h2, h3, h4)) && AllProper(Releaf(h1, h2, h3))
  {}

  /** 0.0.0.0/24 to h1, 0.0.0.0/25 to h2, and the /24 changed to h3: the longest match of 0.0.0.128 is the
      /24, whose next hop is now h3, but the lookup still answers h1. */
  method StaleCalls(sz1: nat, sz0: nat, h1: Hop, h2: Hop, h3: Hop) returns (p: Poptrie, answer: Hop)
    requires 1 <= sz1 <= 28 && 1 <= sz0 <= 28 && h1 != h2 && h1 != h3
    ensures 19 <= sz1 && 19 <= sz0 ==> p.Fails() == 0
    ensures p.Fails() == 0 ==> Kept(p) && answer == h1 && NextHop(RouteMap(p), 128) == h3
  {
    hide Kept, Initial, Performs, Poptrie.Fails, Poptrie.Foot, Consistent, Distinct, StripSlot, FastIndex, NextHop,
         Named, Proper, Objs;
    OpsProper(h1, h2, h3, 0);
    ghost var ss, ops := [], Spoil(h1, h2, h3);
    p, ss := FromFresh(sz1, sz0, [Add(0, 24, h1), Add(0, 25, h2), Change(0, 24, h3)]);
    answer := 0;
    p.FootHeld();
    Allocated(p.shape);
    if p.Fails() > 0 { return; }
    assert Performs(ss[0], ss[1], ops[0]) && Performs(ss[1], ss[2], ops[1]) && Performs(ss[2], ss[3], ops[2]);
    ghost var a, b, c, q := Spoils(ss[0], ss[1], ss[2], ss[3], h1, h2, h3);
    StaleAnswer(ss[3], a, b, c, h1, h3, q);
    ghost var visits;
    answer, visits := Lookup(p, 128);
  }

  /** Three more additions, and the last one, of 0.0.0.252/32 to h3, is lost to the early exit: the
      lookup of 0.0.0.252 still answers h1. */
  method LostCalls(sz1: nat, sz0: nat, h1: Hop, h2: Hop, h3: Hop, h4: Hop) returns (p: Poptrie, answer: Hop)
    requires 1 <= sz1 <= 28 && 1 <= sz0 <= 28 && h1 != h2 && h1 != h3 && h4 != h1 && h4 != h3
    ensures 19 <= sz1 && 19 <= sz0 ==> p.Fails() == 0
    ensures p.Fails() == 0 ==> Kept(p) && answer == h1 && NextHop(RouteMap(p), 252) == h3
  {
    hide Kept, Initial, Performs, Poptrie.Fails, Poptrie.Foot, StripSlot, FastIndex, NextHop, Named, Proper,
         Overlooked, Objs;
    OpsProper(h1, h2, h3, h4);
    ghost var ss;
    p, ss := FromFresh(sz1, sz0, [Add(0, 24, h1), Add(0, 25, h2), Change(0, 24, h3), Add(248, 31, h4),
                                  Add(250, 31, h4), Add(252, 32, h3)]);
    answer := 0;
    p.FootHeld();
    Allocated(p.shape);
    if p.Fails() > 0 { return; }
    ghost var e := LostAnswer(ss, h1, h2, h3, h4);
    ghost var visits;
    answer, visits := Lookup(p, 252);
  }

  /** Another addition instead, of 0.0.0.130/32 to h3, puts a new leaf block beside the old children: the
      lookup of 0.0.0.130 is right, that of 0.0.0.132 still is not. */
  method ReleafCalls(sz1: nat, sz0: nat, h1: Hop, h2: Hop, h3: Hop) returns (p: Poptrie, right: Hop, wrong: Hop)
    requires 1 <= sz1 <= 28 && 1 <= sz0 <= 28 && h1 != h2 && h1 != h3
    ensures 19 <= sz1 && 19 <= sz0 ==> p.Fails() == 0
    ensures p.Fails() == 0 ==>
      && Kept(p) && right == NextHop(RouteMap(p), 130) == h3 && wrong == h1 && NextHop(RouteMap(p), 132) == h3
  {
    hide Kept, Initial, Performs, Poptrie.Fails, Poptrie.Foot, StripSlot, FastIndex, NextHop, Named, Proper, Releafs,
         Objs;
    OpsProper(h1, h2, h3, 0);
    ghost var ss;
    p, ss := FromFresh(sz1, sz0, [Add(0, 24, h1), Add(0, 25, h2), Change(0, 24, h3), Add(130, 32, h3)]);
    right, wrong := 0, 0;
    p.FootHeld();
    Allocated(p.shape);
    if p.Fails() > 0 { return; }
    ghost var a, c, q := ReleafAnswer(ss, h1, h2, h3);
    ghost var visits;
    right, visits := Lookup(p, 130);
    wrong, visits := Lookup(p, 132);
  }
}
