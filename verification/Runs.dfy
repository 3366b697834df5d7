/** Whole runs of the routing table: a fresh table, every sequence of operations, and a change that
    the reuse test gets wrong. */
module Runs {
  import opened Bits
  import opened BuddyModel
  import opened Rib
  import opened Trie
  import opened TrieUpdate
  import opened Overlook
  import opened Neatness
  import opened Radix
  import opened Triangle
  import opened Store
  import opened Clean
  import opened Trace
  import opened PoptrieState
  import opened Entries
  import opened FibTable
  import opened Direct
  import opened Subtree
  import opened FastLookup
  import opened Refinement
  import opened TableShape
  import opened Routes
  import opened Specifics
  import opened Changes
  import opened Cost
  import opened Capacity

  // ----- the fresh table

  /** A table without routes: every entry is the next hop NULL. */
  ghost predicate Initial(s: State) {
    && s.rib == Nil && s.idxs == map[] && s.own == map[] && s.hops == [0]
    && s.es == seq(DIRS, i => TLeaf(0)) && Fib(s.h, s.ds, s.es, s.own) && Blocks(s.h) == {}
    && Recorded(s) && |s.trace| == 1
  }

  lemma NoRoutes()
    ensures Holds(Nil, map[])
  {
    forall i, m | 0 <= m <= 32 && 0 <= i < Pow2(m) ensures RouteOf(At(Nil, i, m)) == None { AtNil(i, m); }
  }

  lemma LeafTracks(i: nat)
    ensures TracksEntry(StripSlot(TLeaf(0)), SubN(Enter(Nil, 0), i, 18))
    ensures NeatEntry(StripSlot(TLeaf(0)), SubN(Enter(Nil, 0), i, 18), 1)
  {
    SubNLeaf(Enter(Nil, 0), i, 18);
  }

  lemma InitialSound(s: State)
    requires Initial(s)
    ensures Sound(s)
  {
    hide TracksEntry, NeatEntry, SubN, StripSlot, Fib, Holds;
    NoRoutes();
    forall i | 0 <= i < DIRS
      ensures TracksEntry(StripSlot(s.es[i]), SubN(Enter(Nil, 0), i, 18))
      ensures NeatEntry(StripSlot(s.es[i]), SubN(Enter(Nil, 0), i, 18), 1)
    {
      LeafTracks(i);
    }
  }

  /** The fresh table is valid. */
  lemma FreshValid(p: Poptrie)
    requires p.Mem() && |p.trace| == 1 && p.H().ln == map[] && p.H().ll == map[]
    requires p.dir.Length == DIRS && p.altdir.Length == DIRS && forall i :: 0 <= i < DIRS ==> p.dir[i] == LEAF_TAG
    requires p.radix == null && p.entries.Length == FIB_SIZE && p.nhops == 1 && p.entries[0] == 0
    requires p.shape == Empty && p.rib == Nil && p.idxs == map[] && p.own == map[] && p.es == seq(DIRS, i => TLeaf(0))
    ensures Valid(p) && Initial(Snap(p)) && RouteMap(p) == map[]
  {
    hide TracksEntry, NeatEntry, SubN, StripSlot, Holds, Poptrie.Mem, Poptrie.Foot, Poptrie.Fails;
    p.MemTrace();
    NoRoutes();
    ShowsEmpty(null, 0, Nil);
    forall i | 0 <= i < DIRS
      ensures TracksEntry(StripSlot(p.es[i]), SubN(Enter(Nil, 0), i, 18))
      ensures NeatEntry(StripSlot(p.es[i]), SubN(Enter(Nil, 0), i, 18), 1)
    {
      LeafTracks(i);
    }
    forall i | 0 <= i < DIRS ensures FibAt(p.H(), p.dir[..][i], p.es[i], map[], i) {}
    FibIntro(p.H(), p.dir[..], p.es, map[]);
  }

  /** poptrie_init: an empty table that answers NULL. */
  method Create(sz1: nat, sz0: nat) returns (p: Poptrie)
    requires 1 <= sz1 <= 28 && 1 <= sz0 <= 28
    ensures Valid(p) && Initial(Snap(p)) && RouteMap(p) == map[] && p.Fails() == 0 && p.shape == Empty
    ensures |p.H().N| == Pow2(sz1) && |p.H().L| == Pow2(sz0) && p.rib == Nil
    ensures fresh(p) && fresh(p.Foot()) && fresh(p.dir) && fresh(p.altdir) && fresh(p.entries)
  {
    hide Poptrie.Mem, Poptrie.Foot, Poptrie.Fails, Valid, Initial, Snap, RouteMap, Poptrie.Apart;
    p := Init(sz1, sz0);
    FreshValid(p);
  }

  // ----- every run

  /** One operation: next hops may be appended, and a route set or deleted. */
  ghost predicate Step(s: State, s': State) {
    HopStep(s, s') || exists mode: Mode, prefix: u32, len: nat, route: Option<u16> ::
      PutStep(s, s', mode, prefix, len, route)
  }

  /** An operation that does not change or delete a route against the reuse test. */
  ghost predicate RightStep(s: State, s': State) {
    HopStep(s, s') || exists mode: Mode, prefix: u32, len: nat, route: Option<u16> ::
      PutStep(s, s', mode, prefix, len, route)
      && (mode == Changing ==> len <= 32 && ReuseRight(s.es, s.rib, prefix, len, route))
  }

  lemma AddIsStep(s: State, s': State, sw: nat, ret: int, prefix: u32, len: nat, nexthop: Hop)
    requires len <= 32 && AddOutcome(s, s', sw, ret, prefix, len, nexthop)
    ensures Step(s, s') && RightStep(s, s')
  {
    hide PutStep, HopStep, AnsweredFrom, Publishes, KeyOf, Named, Sound, RangeFresh, ReuseRight;
    if ret == 0 {
      var n: u16 :| PutStep(s, s', Adding, prefix, len, Some(n));
    }
  }

  lemma SetIsStep(s: State, s': State, prefix: u32, len: nat, route: Option<u16>)
    requires len <= 32 && SetOutcome(s, s', prefix, len, route)
    ensures Step(s, s')
    ensures Sound(s) && Agree(s') ==> RightStep(s, s')
  {
    hide PutStep, HopStep, Agree, ReuseRight, Sound, RangeFresh, Named, NoHalfRoute;
  }

  /** The outcome of a changed route is a step, and a right one where it is known to be safe. */
  lemma ChangeIsStep(s: State, s': State, ret: int, prefix: u32, len: nat, nexthop: Hop)
    requires len <= 32 && ChangeOutcome(s, s', ret, prefix, len, nexthop)
    ensures Step(s, s') && (Sound(s) && Harmless(RoutesOf(s), prefix, len) ==> RightStep(s, s'))
  {
    hide PutStep, HopStep, Agree, ReuseRight, Sound, RangeFresh, Named, NoHalfRoute, KeyOf, SetOutcome;
    if !HopStep(s, s') {
      var n: u16 :| SetOutcome(s, s', prefix, len, Some(n));
      SetIsStep(s, s', prefix, len, Some(n));
      SetIsSafe(s, s', prefix, len, Some(n));
    }
  }

  lemma SetIsSafe(s: State, s': State, prefix: u32, len: nat, route: Option<u16>)
    requires len <= 32 && SetOutcome(s, s', prefix, len, route)
    ensures Sound(s) && NoHalfRoute(RoutesOf(s), prefix, len) ==> Agree(s')
  {
    hide PutStep, Agree, ReuseRight, Sound, RangeFresh, Named, NoHalfRoute;
  }

  lemma UpdateIsStep(s: State, s': State, prefix: u32, len: nat, nexthop: Hop)
    requires len <= 32 && UpdateOutcome(s, s', prefix, len, nexthop)
    ensures Step(s, s') && (Sound(s) && Harmless(RoutesOf(s), prefix, len) ==> RightStep(s, s'))
  {
    hide PutStep, HopStep, Agree, ReuseRight, Sound, RangeFresh, Named, NoHalfRoute, KeyOf, SetOutcome;
    if KeyOf(prefix, len) !in RoutesOf(s) {
      var n: u16 :| PutStep(s, s', Adding, prefix, len, Some(n));
    } else if !HopStep(s, s') {
      var n: u16 :| SetOutcome(s, s', prefix, len, Some(n));
      SetIsStep(s, s', prefix, len, Some(n));
      SetIsSafe(s, s', prefix, len, Some(n));
    }
  }

  lemma DelIsStep(s: State, s': State, ret: int, prefix: u32, len: nat)
    requires len <= 32 && DelOutcome(s, s', ret, prefix, len)
    ensures Step(s, s') && (Sound(s) && Harmless(RoutesOf(s), prefix, len) ==> RightStep(s, s'))
  {
    hide PutStep, Agree, ReuseRight, Sound, RangeFresh, Named, NoHalfRoute, KeyOf, SetOutcome;
    if ret == 0 {
      SetIsStep(s, s', prefix, len, None);
      SetIsSafe(s, s', prefix, len, None);
    }
  }

  /** An operation adds at most the 33 nodes of one path. */
  lemma StepCount(s: State, s': State)
    requires Step(s, s')
    ensures Count(s'.rib) <= Count(s.rib) + 33
  {
    hide Refreshed, Fib, Put, Unmark, Recorded, Publishes, Path, Count;
    if !HopStep(s, s') {
      var mode: Mode, prefix: u32, len: nat, route: Option<u16> :| PutStep(s, s', mode, prefix, len, route);
      PutCount(mode, s.rib, Path(prefix, len), len, route);
      UnmarkCount(Put(mode, s.rib, Path(prefix, len), len, route));
    }
  }

  lemma StepKeeps(s: State, s': State)
    requires Consistent(s) && Step(s, s')
    ensures Consistent(s') && Extends(s.rib, s'.rib)
  {
    hide Consistent, PutStep, HopStep, Extends;
    if HopStep(s, s') {
      HopStepSound(s, s');
      HopStepIdxs(s, s');
      ExtendsSelf(s.rib);
    } else {
      var mode: Mode, prefix: u32, len: nat, route: Option<u16> :| PutStep(s, s', mode, prefix, len, route);
      PutStepKeeps(s, s', mode, prefix, len, route);
    }
  }

  lemma RightStepSound(s: State, s': State)
    requires Sound(s) && RightStep(s, s')
    ensures Sound(s') && Step(s, s')
  {
    hide Sound, Consistent, PutStep, HopStep, ReuseRight, Agree, RangeFresh, Named, NoHalfRoute;
    if HopStep(s, s') {
      HopStepSound(s, s');
    } else {
      var mode: Mode, prefix: u32, len: nat, route: Option<u16> :| PutStep(s, s', mode, prefix, len, route)
        && (mode == Changing ==> len <= 32 && ReuseRight(s.es, s.rib, prefix, len, route));
      if mode == Adding {
        AddSound(s, s', prefix, len, route);
      } else {
        SoundParts(s);
        SetStep(s, s', prefix, len, route);
      }
    }
  }

  lemma SoundParts(s: State)
    requires Sound(s)
    ensures Consistent(s)
  {}

  /** A sequence of states from some consistent table on, such as the fresh one. */
  ghost predicate Run(ss: seq<State>) {
    |ss| > 0 && Consistent(ss[0]) && forall i :: 0 < i < |ss| ==> Step(ss[i - 1], ss[i])
  }

  /** A run in which no change or deletion met the weakness of the reuse test. */
  ghost predicate RightRun(ss: seq<State>) {
    |ss| > 0 && Sound(ss[0]) && forall i :: 0 < i < |ss| ==> RightStep(ss[i - 1], ss[i])
  }

  /** Every state of every run: caches aside, all that the table needs to go on. */
  lemma {:induction false} RunKeeps(ss: seq<State>, i: nat)
    requires Run(ss) && i < |ss|
    ensures Consistent(ss[i])
  {
    hide Step, Consistent;
    if i > 0 {
      RunKeeps(ss, i - 1);
      StepKeeps(ss[i - 1], ss[i]);
    }
  }

  /** In every run no radix node is ever removed. */
  lemma {:induction false} RunExtends(ss: seq<State>, i: nat, j: nat)
    requires Run(ss) && i <= j < |ss|
    ensures Extends(ss[i].rib, ss[j].rib)
    decreases j
  {
    hide Step, Consistent, Extends;
    if i == j {
      ExtendsSelf(ss[i].rib);
    } else {
      RunExtends(ss, i, j - 1);
      RunKeeps(ss, j - 1);
      StepKeeps(ss[j - 1], ss[j]);
      ExtendsTransitive(ss[i].rib, ss[j - 1].rib, ss[j].rib);
    }
  }

  /** In every run, right or wrong, the radix tree answers with the longest match, and the fast form
      with some known next hop. */
  lemma RunRibAnswers(ss: seq<State>, i: nat, a: u32)
    requires Run(ss) && i < |ss|
    ensures var v := Val(Enter(ss[i].rib, 0), a); v < |ss[i].hops| && ss[i].hops[v] == NextHop(RoutesOf(ss[i]), a)
    ensures FastIndex(ss[i].h, ss[i].ds, a) < |ss[i].hops|
  {
    hide Run, Consistent, Val, FastIndex;
    RunKeeps(ss, i);
    RibAnswers(ss[i], a);
    KnownHop(ss[i], a);
  }

  lemma {:induction false} NeatLook(s: Slot, c: Cur, n: nat, addr: u32, d: nat)
    requires NeatEntry(s, c, n) && n > 0
    ensures Look(s, addr, d) < n
    decreases s
  {
    hide Chunk, SubN, Degenerate, IsLeaf;
    if s.Kid? && d + 6 <= 64 {
      var i := Chunk(addr, d, 6);
      if i < 64 {
        NeatIsEntry(s.t.slots[i], SubN(c, i, 6), n);
        NeatLook(s.t.slots[i], SubN(c, i, 6), n, addr, d + 6);
      }
    }
  }

  lemma KnownHop(s: State, a: u32)
    requires Consistent(s)
    ensures FastIndex(s.h, s.ds, a) < |s.hops|
  {
    hide Holds, HopsBelow, Height, Recorded, Fib, EntryAt, NeatEntry, Look, SubN, Chunk, StripSlot;
    var i := Chunk(a, 0, 18);
    Index18(a);
    FibEntry(s.h, s.ds, s.es, s.own, i);
    AllNeatAt(s.es, Enter(s.rib, 0), |s.hops|, i);
    EntryLook(s.h, s.ds, a, s.es[i]);
    NeatLook(StripSlot(s.es[i]), SubN(Enter(s.rib, 0), i, 18), |s.hops|, a, 18);
  }

  /** In every run, at every moment between two operations or within one, every address is answered as
      in some state no older than the last one completed: never from memory that is not allocated, and
      never with anything in between. */
  lemma {:induction false} RunMoments(ss: seq<State>, m: nat, i: nat, j: nat) returns (n: nat)
    requires Run(ss) && m <= i < |ss| && |ss[m].trace| - 1 <= j < |ss[i].trace|
    ensures m <= n <= i && Serves(ss[i].trace[j], ss[n])
    decreases i
  {
    hide Step, Consistent, Serves;
    RunKeeps(ss, i);
    if i == m {
      LastServes(ss[i]);
      n := i;
    } else {
      RunKeeps(ss, i - 1);
      if j < |ss[i - 1].trace| {
        StepTrace(ss[i - 1], ss[i]);
        n := RunMoments(ss, m, i - 1, j);
      } else {
        var after := StepServes(ss[i - 1], ss[i], j);
        n := if after then i else i - 1;
      }
    }
  }

  lemma LastServes(s: State)
    requires Consistent(s)
    ensures |s.trace| > 0 && Serves(Last(s.trace), s)
  {
    hide Holds, HopsBelow, AllNeat, Height, Fib, EntryAt, SameReads;
    FibEntries(s.h, s.ds, s.es, s.own);
    HoldingServes(Last(s.trace), s);
  }

  /** The record only goes on. */
  lemma StepTrace(s: State, s': State)
    requires Step(s, s')
    ensures s.trace <= s'.trace
  {
    hide Refreshed, Fib, Put, Unmark, Recorded, Publishes;
    if !HopStep(s, s') {
      var mode: Mode, prefix: u32, len: nat, route: Option<u16> :| PutStep(s, s', mode, prefix, len, route);
    }
  }

  /** Moments within a step are served by the state before or the state after. */
  lemma StepServes(s: State, s': State, j: nat) returns (after: bool)
    requires Step(s, s') && |s.trace| <= j < |s'.trace|
    ensures Serves(s'.trace[j], if after then s' else s)
  {
    hide Refreshed, Fib, Put, Unmark, Recorded, Serves, Drops;
    assert !HopStep(s, s');
    var mode: Mode, prefix: u32, len: nat, route: Option<u16> :| PutStep(s, s', mode, prefix, len, route);
    var sw: nat :| Publishes(s, s', sw);
    after := j >= sw;
  }

  lemma {:induction false} RunSound(ss: seq<State>, i: nat)
    requires RightRun(ss) && i < |ss|
    ensures Sound(ss[i])
  {
    hide RightStep, Sound;
    if i > 0 {
      RunSound(ss, i - 1);
      RightStepSound(ss[i - 1], ss[i]);
    }
  }

  /** After every run that respects the reuse test, every address is answered with the next hop of its
      longest matching prefix among the routes accepted so far; every allocated block belongs to one
      direct entry, and every entry is the one that a build of the radix tree from scratch gives. */
  lemma RunAnswers(ss: seq<State>, i: nat)
    requires RightRun(ss) && i < |ss|
    ensures Answers(ss[i].h, ss[i].ds, ss[i].hops, RoutesOf(ss[i]))
    ensures Blocks(ss[i].h) == ss[i].own.Keys && Fib(ss[i].h, ss[i].ds, ss[i].es, ss[i].own)
    ensures AllFresh(ss[i].es, Enter(ss[i].rib, 0))
  {
    hide RightRun, Answers, AllFresh;
    RunSound(ss, i);
    SoundAnswers(ss[i]);
    SoundIsFresh(ss[i]);
  }

  /** And so at every moment: the longest matches of a state no older than the last one completed. */
  lemma RunAlwaysRight(ss: seq<State>, m: nat, i: nat, j: nat) returns (n: nat)
    requires RightRun(ss) && m <= i < |ss| && |ss[m].trace| - 1 <= j < |ss[i].trace|
    ensures m <= n <= i && Answers(ss[i].trace[j].h, ss[i].trace[j].ds, ss[n].hops, RoutesOf(ss[n]))
  {
    hide Run, RightRun, Sound, Serves, Answers;
    RightIsRun(ss);
    n := RunMoments(ss, m, i, j);
    RunSound(ss, n);
    ServedAnswers(ss[i].trace[j], ss[n], ss[n].hops);
  }

  lemma RightIsRun(ss: seq<State>)
    requires RightRun(ss)
    ensures Run(ss)
  {
    hide PutStep, HopStep, ReuseRight, Consistent;
    forall i | 0 < i < |ss| ensures Step(ss[i - 1], ss[i]) { assert RightStep(ss[i - 1], ss[i]); }
  }

  /** The condition on a changed or deleted route is necessary: against it some address is
      answered wrongly. */
  lemma StaleStep(s: State, s': State, prefix: u32, len: nat, route: Option<u16>)
    requires Sound(s) && PutStep(s, s', Changing, prefix, len, route)
    ensures Agree(s') <==> ReuseRight(s.es, s.rib, prefix, len, route)
  {
    assert len <= 32;
    hide Sound, Consistent, PutStep, Agree, ReuseRight, RangeFresh, Named, NoHalfRoute;
    SoundParts(s);
    SetStep(s, s', prefix, len, route);
  }

  // ----- a change that goes wrong

  /** n empty radix nodes above r, always to the left. */
  function Chain(n: nat, r: Rib): Rib {
    if n == 0 then r else Node(None, false, Chain(n - 1, r), Nil)
  }

  lemma {:induction false} PutChain(mode: Mode, n: nat, r: Rib, m: nat, route: Option<u16>)
    requires r.Node?
    ensures Put(mode, Chain(n, r), 0, n + m, route) == Chain(n, Put(mode, r, 0, m, route))
  {
    if n > 0 {
      BitOfZero(n + m - 1);
      PutChain(mode, n - 1, r, m, route);
    }
  }

  lemma {:induction false} PutFirst(mode: Mode, n: nat, route: Option<u16>)
    ensures Put(mode, Nil, 0, n, route) == Chain(n, Node(route, true, Nil, Nil))
  {
    if n > 0 {
      BitOfZero(n - 1);
      PutFirst(mode, n - 1, route);
    }
  }

  lemma {:induction false} UnmarkChain(n: nat, r: Rib)
    ensures Unmark(Chain(n, r)) == Chain(n, Unmark(r))
  {
    if n > 0 { UnmarkChain(n - 1, r); }
  }

  lemma {:induction false} SubNChain(n: nat, r: Rib, m: nat)
    requires m <= n && r.Node?
    ensures SubN(Enter(Chain(n, r), 0), 0, m) == Enter(Chain(n - m, r), 0)
  {
    if m > 0 {
      BitOfZero(m - 1);
      SubNHead(Enter(Chain(n, r), 0), 0, m - 1);
      SubNChain(n - 1, r, m - 1);
    }
  }

  /** A route of length 24 with index a and, when there is one, its left half with another. */
  function Pair(a: u16, mark: bool, half: Option<u16>): Rib {
    Node(Some(a), mark, if half.Some? then Node(half, false, Nil, Nil) else Nil, Nil)
  }

  /** The radix tree after 0.0.0.0/24 and 0.0.0.0/25 were added to an empty one. */
  lemma TwoAdded(a: u16, b: u16)
    ensures var r1 := Unmark(Put(Adding, Nil, 0, 24, Some(a)));
      Unmark(Put(Adding, r1, 0, 25, Some(b))) == Chain(24, Pair(a, false, Some(b)))
  {
    PutFirst(Adding, 24, Some(a));
    UnmarkChain(24, Node(Some(a), true, Nil, Nil));
    var r := Pair(a, false, None);
    PutChain(Adding, 24, r, 1, Some(b));
    BitOfZero(0);
    assert Put(Adding, r, 0, 1, Some(b)) == Node(Some(a), false, Node(Some(b), true, Nil, Nil), Nil);
    UnmarkChain(24, Put(Adding, r, 0, 1, Some(b)));
  }

  /** And after 0.0.0.0/24 was then changed: the more specific node is not marked. */
  lemma OneChanged(a: u16, b: u16, c: u16)
    ensures Put(Changing, Chain(24, Pair(a, false, Some(b))), 0, 24, Some(c)) == Chain(24, Pair(c, true, Some(b)))
  {
    PutChain(Changing, 24, Pair(a, false, Some(b)), 0, Some(c));
  }

  lemma ChunksOf128()
    ensures Chunk(128, 18, 6) == 0 && Chunk(128, 24, 6) == 32 && Top(128, 25) == 1 && Top(128, 24) == 0
    ensures Chunk(128, 0, 18) == 0 && Bit(32, 5)
  {
    hide Chunk, Top, Shr, Pow2;
    Pow2At6();
    TopAt32(128);
    Pow2Values();
    ShrIsDiv(128, 14);
    ShrIsDiv(128, 8);
    ShrIsDiv(128, 7);
    ShrIsDiv(128, 2);
    TopStep(128, 18, 6);
    TopStep(128, 24, 6);
    Index18(128);
    assert Bit(8, 3) == Bit(1, 0);
    assert Bit(32, 5) == Bit(8, 3);
  }

  lemma Pow2Values()
    ensures Pow2(2) == 4 && Pow2(7) == 128 && Pow2(8) == 256 && Pow2(14) > 128
  {
    assert Pow2(4) == 16;
    assert Pow2(6) == 64;
    Pow2Monotone(8, 14);
  }

  /** Whatever stored entry agrees with the two routes, after the change of the /24 from a to c the
      address 0.0.0.128 still finds a: the slot of the /24 has no marked child and is kept. */
  lemma StaleChange(o: Slot, a: u16, b: u16, c: u16)
    requires a != b && TracksEntry(o, SubN(Enter(Chain(24, Pair(a, false, Some(b))), 0), 0, 18))
    ensures Look(UpdateEntry(o, SubN(Enter(Chain(24, Pair(c, true, Some(b))), 0), 0, 18), 0, 24), 128, 18) == a
    ensures Val(Enter(Chain(24, Pair(c, true, Some(b))), 0), 128) == c
  {
    hide Chunk, Top, SubN, Look, Rebuild, Bit, Degenerate, UpdateEntry;
    ChunksOf128();
    var n0, n1 := Pair(a, false, Some(b)), Pair(c, true, Some(b));
    SubNChain(24, n0, 18);
    SubNChain(24, n1, 18);
    StaleSlot24(o, a, b, c);
    StaleVal(b, c);
  }

  /** The empty half of the /24 below the chain. */
  lemma StaleHalfAt(b: u16, c: u16)
    ensures var root := Enter(Chain(24, Pair(c, true, Some(b))), 0);
            SubN(root, 1, 25) == Cur(Nil, Nil, c) && Tall(root) <= 32
  {
    var n1 := Pair(c, true, Some(b));
    var root := Enter(Chain(24, n1), 0);
    SubNChain(24, n1, 24);
    assert SubN(root, 1, 25) == Down(SubN(root, 0, 24), true);
    hide SubN;
    ChainTall(24, n1);
  }

  lemma StaleVal(b: u16, c: u16)
    ensures Val(Enter(Chain(24, Pair(c, true, Some(b))), 0), 128) == c
  {
    hide Top, Val, SubN, Tall, Chain, Pair, Chunk, Const;
    ChunksOf128();
    StaleHalfAt(b, c);
    ConstLeaf(Cur(Nil, Nil, c), c);
    ConstVal(Enter(Chain(24, Pair(c, true, Some(b))), 0), 128, 25, c);
  }

  lemma {:induction false} ChainTall(n: nat, r: Rib)
    requires Height(r) == 2
    ensures Height(Chain(n, r)) == n + 2
  {
    if n > 0 { ChainTall(n - 1, r); }
  }

  lemma StaleSlot24(o: Slot, a: u16, b: u16, c: u16)
    requires a != b && TracksEntry(o, Enter(Chain(6, Pair(a, false, Some(b))), 0))
    ensures Look(UpdateEntry(o, Enter(Chain(6, Pair(c, true, Some(b))), 0), 0, 24), 128, 18) == a
  {
    hide Chunk, Top, SubN, Look, Rebuild, Bit, Degenerate, Uniform;
    var n0, n1 := Pair(a, false, Some(b)), Pair(c, true, Some(b));
    var c0, c1 := Enter(Chain(6, n0), 0), Enter(Chain(6, n1), 0);
    ShortSeen(o, c1, 0, 24);
    SubNChain(6, n0, 6);
    SubNChain(6, n1, 6);
    var s0, s1 := Enter(n0, 0), Enter(n1, 0);
    ChunksOf128();
    NotUniform(o, c0, s0, a, b);
    RebuildAt(o, c1, 0);
    assert TracksSlot(o.t.slots[0], s0);
    assert Rebuild(o, c1).slots[0] == o.t.slots[0];
    LookCompress(Rebuild(o, c1), 128, 18);
    LookSlot(Rebuild(o, c1), 128, 18, 0);
    HalfLook(o.t.slots[0], s0, 128, 24, true);
  }

  /** Two different next hops cannot be one leaf. */
  lemma NotUniform(o: Slot, c0: Cur, s0: Cur, a: u16, b: u16)
    requires a != b && TracksEntry(o, c0) && s0 == SubN(c0, 0, 6) && s0 == Enter(Pair(a, false, Some(b)), 0)
    ensures o.Kid? && |o.t.slots| == 64
  {
    if o.Leaf? {
      ConstLeaf(Down(s0, true), o.v);
      ConstLeaf(Down(s0, false), o.v);
      ConstSplit(s0, o.v);
      ConstDown(c0, o.v, 0, 6);
    }
  }

  /** The run that goes wrong: add 0.0.0.0/24 and 0.0.0.0/25 to the fresh table and change the /24.
      The two additions leave the table sound; after the change 0.0.0.128 is answered with the old
      index a although the radix tree says c. */
  lemma StaleRun(s0: State, s1: State, s2: State, s3: State, a: u16, b: u16, c: u16)
    requires Initial(s0) && a != b && a != c
    requires PutStep(s0, s1, Adding, 0, 24, Some(a)) && PutStep(s1, s2, Adding, 0, 25, Some(b))
    requires PutStep(s2, s3, Changing, 0, 24, Some(c))
    ensures Sound(s2) && FastIndex(s3.h, s3.ds, 128) == a && Val(Enter(s3.rib, 0), 128) == c && !Agree(s3)
    ensures Run([s0, s1, s2, s3])
  {
    hide Initial, PutStep, Sound, RangeFresh, Val, FastIndex, Put, Unmark, Pair, Consistent;
    InitialSound(s0);
    SoundParts(s0);
    AddSound(s0, s1, 0, 24, Some(a));
    AddSound(s1, s2, 0, 25, Some(b));
    StaleEnd(s0, s1, s2, s3, a, b, c);
    assert !AgreeAt(s3.h, s3.ds, s3.rib, 128);
    IsStep(s0, s1, Adding, 0, 24, Some(a));
    IsStep(s1, s2, Adding, 0, 25, Some(b));
    IsStep(s2, s3, Changing, 0, 24, Some(c));
    hide Step;
    var ss := [s0, s1, s2, s3];
    forall i | 0 < i < |ss| ensures Step(ss[i - 1], ss[i]) { if i == 1 {} else if i == 2 {} else { assert i == 3; } }
  }

  lemma IsStep(s: State, s': State, mode: Mode, prefix: u32, len: nat, route: Option<u16>)
    requires PutStep(s, s', mode, prefix, len, route)
    ensures Step(s, s')
  {
    hide PutStep, HopStep;
  }

  lemma StaleEnd(s0: State, s1: State, s2: State, s3: State, a: u16, b: u16, c: u16)
    requires Initial(s0) && a != b && a != c
    requires PutStep(s0, s1, Adding, 0, 24, Some(a)) && PutStep(s1, s2, Adding, 0, 25, Some(b)) && Sound(s2)
    requires PutStep(s2, s3, Changing, 0, 24, Some(c))
    ensures FastIndex(s3.h, s3.ds, 128) == a && Val(Enter(s3.rib, 0), 128) == c
  {
    hide Val, FastIndex, Look, Put, Unmark, Pair, TracksEntry, UpdateEntry, StripSlot, Fib, SubN, Publishes, EntryAt,
         Holds, AllNeat, HopsBelow, Height, Chain, Shr, Chunk, Top;
    PathOfZero();
    TwoAdded(a, b);
    OneChanged(a, b, c);
    ChunksOf128();
    TrackingAt(s2.es, Enter(s2.rib, 0), 0);
    StaleChange(StripSlot(s2.es[0]), a, b, c);
    assert Covered(0, 24, 0);
    FibEntry(s3.h, s3.ds, s3.es, s3.own, 0);
    EntryLook(s3.h, s3.ds, 128, s3.es[0]);
    EnterPlain(Chain(24, Pair(c, true, Some(b))), 0);
    ValPlain(Enter(Chain(24, Pair(c, true, Some(b))), 0), 128);
  }

  lemma PathOfZero()
    ensures Path(0, 24) == 0 && Path(0, 25) == 0 && Top(0, 18) == 0
  {
    hide Pow2;
    TopAt32(0);
    ShrIsDiv(0, 8);
    ShrIsDiv(0, 7);
    ShrIsDiv(0, 14);
    ZeroDiv(Pow2(8));
    ZeroDiv(Pow2(7));
    ZeroDiv(Pow2(14));
  }

  lemma ZeroDiv(p: nat)
    requires p > 0
    ensures 0 / p == 0
  {}
}
