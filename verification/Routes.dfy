/** The operations of the routing table: poptrie_route_add, _change, _update and _del, and the two
    lookups, with the invariant that ties the fast form, the radix tree and the allocators. */
module Routes {
  import opened Bits
  import opened BuddyModel
  import opened Rib
  import opened Trie
  import opened TrieUpdate
  import opened Neatness
  import opened Radix
  import opened Triangle
  import opened Store
  import opened Sharing
  import opened Trace
  import opened Cost
  import opened PoptrieState
  import opened Build
  import opened Clean
  import opened Entries
  import opened FibTable
  import opened Direct
  import opened Subtree
  import opened FastLookup
  import opened Refinement
  import opened TableShape

  /** POPTRIE_INIT_FIB_SIZE */
  const FIB_SIZE: nat := 4096

  /** The table of next hops: entry 0 is NULL and no next hop occurs twice. */
  ghost predicate HopsOK(p: Poptrie)
    reads p`nhops, p.entries
  {
    && p.entries.Length == FIB_SIZE && 1 <= p.nhops <= FIB_SIZE && p.entries[0] == 0
    && forall i, j :: 0 <= i < j < p.nhops ==> p.entries[i] != p.entries[j]
  }

  /** The radix tree holds the routes idxs, caches are right and no mark is left. */
  ghost predicate TreeOK(p: Poptrie, r: Rib, idxs: map<Prefix, u16>)
    reads p`radix, p`shape, Objs(p.shape)
  {
    && p.radix == RootOf(p.shape) && Shows(p.shape, null, 0, r)
    && Unmarked(r) && Height(r) <= 33 && Holds(r, idxs)
  }

  /** What every operation keeps: the radix tree with its caches holds the routes, every direct entry
      is stored in neat shape, and every allocated block belongs to one direct entry. */
  ghost predicate Kept(p: Poptrie)
    reads p, p.Foot(), p.dir, p.altdir, p.entries, Objs(p.shape)
  {
    && Table(p, p.es, p.own) && Blocks(p.H()) == p.own.Keys
    && TreeOK(p, p.rib, p.idxs) && Clear(p, Objs(p.shape))
    && HopsOK(p) && Bounded(p.idxs, p.nhops)
    && AllNeat(p.es, Enter(p.rib, 0), p.nhops) && HopsBelow(p.rib, p.nhops)
  }

  /** And the fast form agrees with the radix tree. */
  ghost predicate Valid(p: Poptrie)
    reads p, p.Foot(), p.dir, p.altdir, p.entries, Objs(p.shape)
  {
    Kept(p) && Tracking(p.es, Enter(p.rib, 0))
  }

  /** The known next hops. */
  ghost function Hops(p: Poptrie): seq<Hop>
    reads p`nhops, p.entries
  {
    if p.nhops <= p.entries.Length then p.entries[..p.nhops] else []
  }

  /** The routes with the next hops as the caller gave them. */
  function Named(idxs: map<Prefix, u16>, hops: seq<Hop>): map<Prefix, Hop> {
    map k | k in idxs && idxs[k] < |hops| :: hops[idxs[k]]
  }

  /** The routes accepted so far. */
  ghost function RouteMap(p: Poptrie): map<Prefix, Hop>
    reads p`idxs, p`nhops, p.entries
  {
    Named(p.idxs, Hops(p))
  }

  function HopOf(route: Option<u16>, hops: seq<Hop>): Option<Hop>
    requires route.Some? ==> route.value < |hops|
  {
    if route.Some? then Some(hops[route.value]) else None
  }

  ghost predicate Bounded(idxs: map<Prefix, u16>, n: nat) {
    forall k :: k in idxs ==> idxs[k] < n
  }

  lemma NamedPut(idxs: map<Prefix, u16>, hops: seq<Hop>, key: Prefix, route: Option<u16>)
    requires Bounded(idxs, |hops|) && (route.Some? ==> route.value < |hops|)
    ensures Bounded(PutTable(idxs, key, route), |hops|)
    ensures Named(PutTable(idxs, key, route), hops) == PutTable(Named(idxs, hops), key, HopOf(route, hops))
  {}

  /** Appending next hops changes no route. */
  lemma NamedMore(idxs: map<Prefix, u16>, hops: seq<Hop>, hops': seq<Hop>)
    requires Bounded(idxs, |hops|) && hops <= hops'
    ensures Bounded(idxs, |hops'|) && Named(idxs, hops') == Named(idxs, hops)
  {}

  function KeyOf(prefix: u32, len: nat): Prefix
    requires len <= 32
  {
    Prefix(Path(prefix, len), len)
  }

  // ----- what the table answers

  /** The next hop of the longest matching prefix, or NULL. */
  function NextHop(routes: map<Prefix, Hop>, addr: u32): Hop {
    match Best(routes, addr, 32)
    case Some(h) => h
    case None => 0
  }

  /** Reading memory h through the direct entries ds answers every address with the longest match. */
  ghost predicate Answers(h: Heap, ds: seq<u32>, hops: seq<Hop>, routes: map<Prefix, Hop>) {
    forall a: u32 :: AnswersAt(h, ds, hops, routes, a)
  }

  ghost predicate AnswersAt(h: Heap, ds: seq<u32>, hops: seq<Hop>, routes: map<Prefix, Hop>, a: u32) {
    FastIndex(h, ds, a) < |hops| && hops[FastIndex(h, ds, a)] == NextHop(routes, a)
  }

  lemma {:induction false} BestNamed(idxs: map<Prefix, u16>, hops: seq<Hop>, addr: u32, m: nat)
    requires m <= 32 && Bounded(idxs, |hops|)
    ensures var b: Option<u16> := Best<u16>(idxs, addr, m);
      (b.Some? ==> b.value < |hops|) && Best<Hop>(Named(idxs, hops), addr, m) == HopOf(b, hops)
  {
    hide Key;
    if m > 0 { BestNamed(idxs, hops, addr, m - 1); }
  }

  /** The index that the radix tree gives leads to the next hop of the longest match. */
  lemma IndexHop(r: Rib, idxs: map<Prefix, u16>, hops: seq<Hop>, addr: u32)
    requires Holds(r, idxs) && |hops| > 0 && hops[0] == 0 && Bounded(idxs, |hops|)
    ensures var v := Val(Enter(r, 0), addr); v < |hops| && hops[v] == NextHop(Named(idxs, hops), addr)
  {
    hide Holds, Val, Best;
    ValIsLpm(r, idxs, addr);
    BestNamed(idxs, hops, addr, 32);
  }

  lemma RootTall(r: Rib)
    requires Height(r) <= 33
    ensures Tall(Enter(r, 0)) <= 32
  {}

  /** Stored entries that agree with the radix tree answer with the longest match. */
  lemma TableAnswers(h: Heap, ds: seq<u32>, es: seq<TSlot>, r: Rib, idxs: map<Prefix, u16>, hops: seq<Hop>)
    requires |ds| == |es| == DIRS && (forall i :: 0 <= i < DIRS ==> EntryAt(h, ds[i], es[i]))
    requires Tracking(es, Enter(r, 0)) && Height(r) <= 33 && Holds(r, idxs)
    requires |hops| > 0 && hops[0] == 0 && Bounded(idxs, |hops|)
    ensures Answers(h, ds, hops, Named(idxs, hops))
  {
    hide EntryAt, Tracking, Holds, Val, FastIndex, NextHop, Height, Tall;
    RootTall(r);
    forall a: u32 ensures AnswersAt(h, ds, hops, Named(idxs, hops), a) {
      FastIsVal(h, ds, es, Enter(r, 0), a);
      IndexHop(r, idxs, hops, a);
    }
  }

  lemma FibEntries(h: Heap, ds: seq<u32>, es: seq<TSlot>, own: map<Blk, nat>)
    requires Fib(h, ds, es, own)
    ensures |ds| == |es| == DIRS && forall i :: 0 <= i < DIRS ==> EntryAt(h, ds[i], es[i])
  {
    forall i | 0 <= i < DIRS ensures EntryAt(h, ds[i], es[i]) { FibEntry(h, ds, es, own, i); }
  }

  /** At a moment that holds entries in agreement with the radix tree, every address is answered with
      the longest match. */
  lemma HoldingAnswers(m: Moment, ds: seq<u32>, es: seq<TSlot>, r: Rib, idxs: map<Prefix, u16>, hops: seq<Hop>)
    requires Holding(m, ds, es) && Tracking(es, Enter(r, 0)) && Height(r) <= 33 && Holds(r, idxs)
    requires |hops| > 0 && hops[0] == 0 && Bounded(idxs, |hops|)
    ensures Answers(m.h, m.ds, hops, Named(idxs, hops))
  {
    TableAnswers(m.h, ds, es, r, idxs, hops);
  }

  /** The next hop that the fast form gives for an address, right or wrong. */
  ghost function Answer(p: Poptrie, addr: u32): Hop
    reads p, p.Foot(), p.dir, p.entries
  {
    var i := FastIndex(p.H(), p.dir[..], addr);
    if i < |Hops(p)| then Hops(p)[i] else 0
  }

  /** poptrie_lookup: an entry of the next-hop table, found in at most three node visits; the next
      hop of the longest match when the fast form agrees with the radix tree. */
  method Lookup(p: Poptrie, addr: u32) returns (nexthop: Hop, ghost visits: nat)
    requires Kept(p)
    ensures FastIndex(p.H(), p.dir[..], addr) < |Hops(p)| && visits <= 3
    ensures nexthop == Answer(p, addr)
    ensures Valid(p) ==> nexthop == NextHop(RouteMap(p), addr)
  {
    hide Poptrie.Mem, Shows, Holds, Unmarked, Tracking, EntryAt, Val, FastIndex, Best, Height, Tall, AllNeat, HopsBelow;
    FibEntries(p.H(), p.dir[..], p.es, p.own);
    RootTall(p.rib);
    var index;
    index, visits := FindIndex(p, addr, p.es, Enter(p.rib, 0), p.nhops);
    if Valid(p) { AnswerIsLongest(p, addr); }
    nexthop := p.entries[index];
  }

  /** A valid table answers with the next hop of the longest match. */
  lemma AnswerIsLongest(p: Poptrie, addr: u32)
    requires Valid(p)
    ensures Answer(p, addr) == NextHop(RouteMap(p), addr)
  {
    hide Poptrie.Mem, Shows, Holds, Unmarked, Tracking, EntryAt, Val, FastIndex, Best, Height, Tall, AllNeat, HopsBelow,
         Fib;
    FibEntries(p.H(), p.dir[..], p.es, p.own);
    RootTall(p.rib);
    FastIsVal(p.H(), p.dir[..], p.es, Enter(p.rib, 0), addr);
    IndexHop(p.rib, p.idxs, Hops(p), addr);
  }

  /** poptrie_rib_lookup */
  method RibLookupHop(p: Poptrie, addr: u32) returns (nexthop: Hop)
    requires Kept(p)
    ensures nexthop == NextHop(RouteMap(p), addr)
  {
    hide Poptrie.Mem, Holds, Unmarked, AllNeat, Fib, Val, Best, Blocks, HopsBelow;
    ShowsLinked(p.shape, p.rib);
    IndexHop(p.rib, p.idxs, Hops(p), addr);
    if p.radix == null {
      EmptyVal(addr, p.rib);
    } else {
      RibLookupIsVal(p.radix, addr, 0, null, p.shape, p.rib);
      hide Shows, RibLookup;
      ValIs(p.rib, addr);
    }
    nexthop := p.entries[RibLookup(p.radix, addr, 0, null, p.shape)];
  }

  lemma ShowsLinked(sh: Shape, r: Rib)
    requires Shows(sh, null, 0, r)
    ensures Linked(sh) && (sh.Empty? <==> r == Nil)
  {}

  lemma ValIs(r: Rib, addr: u32)
    ensures Val(Enter(r, 0), addr) == SubN(Enter(r, 0), addr, 32).ext
  {}

  lemma EmptyVal(addr: u32, r: Rib)
    requires r == Nil
    ensures Val(Enter(r, 0), addr) == 0
  {
    SubNLeaf(Enter(r, 0), addr, 32);
  }

  // ----- _update_subtree

  /** The radix tree has been changed from r0 to r1; the fast form is still the one before. */
  ghost predicate Changed(p: Poptrie, r0: Rib, r1: Rib, mode: Mode, prefix: u32, len: nat, route: Option<u16>)
    reads p, p.Foot(), p.dir, p.altdir, Objs(p.shape)
  {
    && len <= 32 && (len < 18 ==> Canonical(prefix, len))
    && Table(p, p.es, p.own) && Clear(p, Objs(p.shape))
    && p.shape.Fork? && p.radix == p.shape.o && Shows(p.shape, null, 0, r1)
    && Unmarked(r0) && r1 == Put(mode, r0, Path(prefix, len), len, route)
  }

  lemma ChangedParts(p: Poptrie, r0: Rib, r1: Rib, mode: Mode, prefix: u32, len: nat, route: Option<u16>)
    requires Changed(p, r0, r1, mode, prefix, len, route)
    ensures len <= 32 && (len < 18 ==> Canonical(prefix, len))
    ensures Table(p, p.es, p.own) && Clear(p, Objs(p.shape))
    ensures p.shape.Fork? && p.radix == p.shape.o && Shows(p.shape, null, 0, r1)
    ensures Unmarked(r0) && r1 == Put(mode, r0, Path(prefix, len), len, route)
    ensures p !in p.Foot() && p.dir !in p.Foot() && p.altdir !in p.Foot() && p.dir != p.altdir
  {}

  method UpdateSubtree(p: Poptrie, prefix: u32, len: nat, ghost r0: Rib, ghost r1: Rib, ghost mode: Mode,
          ghost route: Option<u16>)
    returns (ok: bool, ghost es': seq<TSlot>, ghost own': map<Blk, nat>, ghost sw: nat)
    requires Changed(p, r0, r1, mode, prefix, len, route)
    modifies p`root, p`dir, p`altdir, p`trace, p.Foot(), p.dir, p.altdir, Objs(p.shape)
    ensures Table(p, es', own') && Clear(p, Objs(p.shape))
    ensures (p.dir == old(p.dir) && p.altdir == old(p.altdir)) || (p.dir == old(p.altdir) && p.altdir == old(p.dir))
    ensures p.Fails() >= old(p.Fails()) && (!ok ==> p.Fails() > old(p.Fails()))
    ensures len < 18 && RightEmpty(r1, prefix, len) ==> ok
    ensures len >= 18 ==> (ok <==> p.Fails() == old(p.Fails()))
    ensures Switchover(old(p.trace), p.trace, sw, old(p.dir[..]), p.es, p.dir[..], es')
    ensures Spends(old(p.trace), p.trace, 7 * Count(r1) + 11)
    ensures p.Fails() == old(p.Fails()) ==>
      && Shows(p.shape, null, 0, Unmark(r1))
      && Refreshed(p.es, es', Enter(r1, 0), prefix, len)
      && Drops(SwitchAt(p.trace, sw).h, p.H(), p.own.Keys - own'.Keys)
      && (Blocks(old(p.H())) == p.own.Keys ==> Blocks(p.H()) == own'.Keys)
  {
    hide Poptrie.Mem, Poptrie.Fails, Poptrie.Foot, Fib, Shows, Objs, Toward, Top, Chunk, Drops,
         Switchover, Refreshed, Blocks, StripSlot, SubN, Put, Unmarked, Path, Canonical, Table, Changed, Count,
         RightEmpty;
    p.FootHeld();
    Allocated(p.shape);
    ChangedParts(p, r0, r1, mode, prefix, len, route);
    PutIsToward(mode, r0, prefix, len, route);
    PutNeed(mode, r0, Path(prefix, len), len, route);
    if len < 18 {
      ok, es', own', sw := UpdateShort(p, prefix, len, p.es, p.own, p.shape, r1, mode, Enter(r0, 0), route);
    } else {
      ok, es', own', sw := UpdateOne(p, prefix, len, p.es, p.own, p.shape, r1, mode, Enter(r0, 0), route);
    }
    if !ok { return; }
    PutUnmarks(mode, r0, Path(prefix, len), len, route);
    ClearMarks(p.radix, prefix, len, 0, p.shape, null, r1);
  }

  lemma PutStaysTall(mode: Mode, r0: Rib, prefix: u32, len: nat, route: Option<u16>)
    requires len <= 32 && Height(r0) <= 33
    ensures var r1 := Put(mode, r0, Path(prefix, len), len, route); Height(r1) <= 33 && Tall(Enter(r1, 0)) <= 32
  {
    hide Put;
    PutHeight(mode, r0, Path(prefix, len), len, route);
  }

  /** The radix tree after the marks are cleared. */
  lemma TreeAfter(p: Poptrie, r0: Rib, idxs: map<Prefix, u16>, mode: Mode, prefix: u32, len: nat, route: Option<u16>)
    requires len <= 32 && Height(r0) <= 33 && Holds(r0, idxs) && p.radix == RootOf(p.shape)
    requires Shows(p.shape, null, 0, Unmark(Put(mode, r0, Path(prefix, len), len, route)))
    ensures TreeOK(p, Unmark(Put(mode, r0, Path(prefix, len), len, route)), PutTable(idxs, KeyOf(prefix, len), route))
  {
    hide Put, Shows, Path, Holds, PutTable;
    PathBound(prefix, len);
    PutHolds(mode, r0, idxs, Path(prefix, len), len, route);
    PutStaysTall(mode, r0, prefix, len, route);
    UnmarkHeight(Put(mode, r0, Path(prefix, len), len, route));
    UnmarkIdentity(Put(mode, r0, Path(prefix, len), len, route));
  }

  // ----- the steps of a run, on values

  /** A snapshot of the table. */
  datatype State = State(h: Heap, ds: seq<u32>, es: seq<TSlot>, own: map<Blk, nat>, rib: Rib, idxs: map<Prefix, u16>,
      hops: seq<Hop>, trace: seq<Moment>)

  ghost function Snap(p: Poptrie): State
    reads p, p.Foot(), p.dir, p.entries
  {
    State(p.H(), p.dir[..], p.es, p.own, p.rib, p.idxs, Hops(p), p.trace)
  }

  /** The routes of a snapshot. */
  ghost function RoutesOf(s: State): map<Prefix, Hop> {
    Named(s.idxs, s.hops)
  }

  /** Only new next hops may have been appended. */
  ghost predicate HopStep(s: State, s': State) {
    s' == s.(hops := s'.hops) && s.hops <= s'.hops
  }

  /** The record of writes ends with the memory and the direct entries of the snapshot. */
  ghost predicate Recorded(s: State) {
    && |s.trace| > 0 && Chained(s.trace) && Last(s.trace).h == s.h && Last(s.trace).ds == s.ds
  }

  /** At moment m every address is answered as in s, from entries in allocated memory. */
  ghost predicate Serves(m: Moment, s: State) {
    Holding(m, s.ds, s.es) && SameReads(m.h, m.ds, s.h, s.ds)
  }

  /** How an update goes public: at every moment before sw all addresses are answered as in s, from that
      moment on, one write later, as in s'; and only then what only old entries owned is freed. */
  ghost predicate Publishes(s: State, s': State, sw: nat) {
    && 0 < |s.trace| <= sw <= |s'.trace| && s.trace <= s'.trace
    && (forall j :: |s.trace| <= j < sw ==> Serves(s'.trace[j], s))
    && (forall j :: sw <= j < |s'.trace| ==> Serves(s'.trace[j], s'))
    && Drops(SwitchAt(s'.trace, sw).h, s'.h, s.own.Keys - s'.own.Keys)
  }

  /** How many blocks an operation may ask for. */
  function Demand(r: Rib): nat { 7 * Count(r) + 242 }

  ghost predicate SameReads(h: Heap, ds: seq<u32>, h': Heap, ds': seq<u32>) {
    forall a: u32 :: ReadsAt(h, ds, h', ds', a)
  }

  ghost predicate ReadsAt(h: Heap, ds: seq<u32>, h': Heap, ds': seq<u32>, a: u32) {
    FastIndex(h, ds, a) == FastIndex(h', ds', a)
  }

  /** Two memories that store the same entries read alike. */
  lemma EntriesRead(h: Heap, ds: seq<u32>, h': Heap, es: seq<TSlot>)
    requires |ds| == |es| == DIRS
    requires forall i :: 0 <= i < DIRS ==> EntryAt(h, ds[i], es[i]) && EntryAt(h', ds[i], es[i])
    ensures SameReads(h, ds, h', ds)
  {
    hide EntryAt, FastIndex, Chunk, Look, StripSlot;
    forall a: u32 ensures ReadsAt(h, ds, h', ds, a) {
      Index18(a);
      EntryLook(h, ds, a, es[Chunk(a, 0, 18)]);
      EntryLook(h', ds, a, es[Chunk(a, 0, 18)]);
    }
  }

  lemma HoldingServes(m: Moment, s: State)
    requires Holding(m, s.ds, s.es) && Fib(s.h, s.ds, s.es, s.own)
    ensures Serves(m, s)
  {
    hide EntryAt, Fib, SameReads;
    FibEntries(s.h, s.ds, s.es, s.own);
    EntriesRead(m.h, s.ds, s.h, s.es);
  }

  /** From the moments of an update to its publication. */
  lemma PublishesIntro(s: State, s': State, sw: nat)
    requires Fib(s.h, s.ds, s.es, s.own) && Fib(s'.h, s'.ds, s'.es, s'.own)
    requires Switchover(s.trace, s'.trace, sw, s.ds, s.es, s'.ds, s'.es)
    requires Drops(SwitchAt(s'.trace, sw).h, s'.h, s.own.Keys - s'.own.Keys)
    ensures Publishes(s, s', sw)
  {
    hide Fib, Drops, Serves, Holding;
    forall j | |s.trace| <= j < sw ensures Serves(s'.trace[j], s) { HoldingServes(s'.trace[j], s); }
    forall j | sw <= j < |s'.trace| ensures Serves(s'.trace[j], s') { HoldingServes(s'.trace[j], s'); }
  }

  /** One route has become `route`: the radix tree has changed there and nowhere else, exactly the
      covered entries have been refreshed, and every entry is stored. */
  ghost predicate PutStep(s: State, s': State, mode: Mode, prefix: u32, len: nat, route: Option<u16>) {
    && len <= 32 && s.hops <= s'.hops && (route.Some? ==> route.value < |s'.hops|)
    && s'.rib == Unmark(Put(mode, s.rib, Path(prefix, len), len, route))
    && s'.idxs == PutTable(s.idxs, KeyOf(prefix, len), route)
    && Refreshed(s.es, s'.es, Enter(Put(mode, s.rib, Path(prefix, len), len, route), 0), prefix, len)
    && Fib(s'.h, s'.ds, s'.es, s'.own) && Blocks(s'.h) == s'.own.Keys && Recorded(s')
    && (exists sw: nat :: Publishes(s, s', sw))
    && Spends(s.trace, s'.trace, Demand(s.rib))
  }

  /** After the radix step of an operation: the tree has changed, all else is as in p.rib. */
  ghost predicate Ready(p: Poptrie, mode: Mode, prefix: u32, len: nat, route: Option<u16>)
    reads p, p.Foot(), p.dir, p.altdir, p.entries, Objs(p.shape)
  {
    && len <= 32 && Changed(p, p.rib, Put(mode, p.rib, Path(prefix, len), len, route), mode, prefix, len, route)
    && Blocks(p.H()) == p.own.Keys && Height(p.rib) <= 33 && Holds(p.rib, p.idxs) && HopsOK(p)
    && Bounded(p.idxs, p.nhops) && (route.Some? ==> route.value < p.nhops)
    && AllNeat(p.es, Enter(p.rib, 0), p.nhops) && HopsBelow(p.rib, p.nhops)
  }

  /** Update the fast form for a changed radix tree and take stock. */
  method Finish(p: Poptrie, prefix: u32, len: nat, ghost r0: Rib, ghost mode: Mode, ghost route: Option<u16>)
    returns (ok: bool, ghost sw: nat)
    requires len <= 32 && r0 == p.rib && Ready(p, mode, prefix, len, route) && p.nhops <= p.entries.Length
    modifies p`root, p`dir, p`altdir, p`trace, p`rib, p`es, p`own, p`idxs, p.Foot(), p.dir, p.altdir, Objs(p.shape)
    ensures p.Mem() && p.Fails() >= old(p.Fails()) && (!ok ==> p.Fails() > old(p.Fails()))
    ensures (p.dir == old(p.dir) && p.altdir == old(p.altdir)) || (p.dir == old(p.altdir) && p.altdir == old(p.dir))
    ensures p.entries[..] == old(p.entries[..])
    ensures len < 18 && RightEmpty(r0, prefix, len) ==> ok
    ensures len >= 18 ==> (ok <==> p.Fails() == old(p.Fails()))
    ensures Spends(old(p.trace), p.trace, Demand(r0))
    ensures p.Fails() == old(p.Fails()) ==>
      && Kept(p) && PutStep(old(Snap(p)), Snap(p), mode, prefix, len, route)
      && Publishes(old(Snap(p)), Snap(p), sw)
  {
    hide Poptrie.Mem, Poptrie.Fails, Poptrie.Foot, Shows, Objs, Tracking, Switchover, Refreshed, Blocks, Put, Unmarked,
         Path, Canonical, AllNeat, HopsBelow, Drops, Extends, Publishes, Fib, Count, Recorded,
         Holds, Unmark, Height, TreeOK, HopsOK, Clear, Table, Kept, PutTable, KeyOf, PutStep, RightEmpty;
    HopsBound(p);
    ghost var s := Snap(p);
    p.FootHeld();
    HopsApart(p);
    TableMem(p, p.es, p.own);
    TableFib(p, p.es, p.own);
    Allocated(p.shape);
    ghost var r1 := Put(mode, r0, Path(prefix, len), len, route);
    PutBound(p.idxs, KeyOf(prefix, len), route, p.nhops);
    ghost var es', own';
    PutCount(mode, r0, Path(prefix, len), len, route);
    PutRight(mode, r0, prefix, len, route);
    ok, es', own', sw := UpdateSubtree(p, prefix, len, r0, r1, mode, route);
    TableMem(p, es', own');
    if p.Fails() == old(p.Fails()) {
      TreeAfter(p, r0, p.idxs, mode, prefix, len, route);
      ShapeAfter(mode, p.es, es', r0, prefix, len, route, p.nhops, p.nhops);
      Commit(p, es', own', Unmark(r1), PutTable(p.idxs, KeyOf(prefix, len), route));
      KeptParts(p);
      TableFib(p, es', own');
      PublishesIntro(s, Snap(p), sw);
      PutIntro(s, Snap(p), mode, prefix, len, route, sw);
    }
  }

  /** An update makes no node in the right half of its prefix. */
  lemma PutRight(mode: Mode, r: Rib, prefix: u32, len: nat, route: Option<u16>)
    requires len <= 32
    ensures RightEmpty(Put(mode, r, Path(prefix, len), len, route), prefix, len) <==> RightEmpty(r, prefix, len)
  {
    TopAt32(prefix);
    PutBelowRight(mode, r, Path(prefix, len), len, route);
  }

  lemma {:induction false} PutBelowRight(mode: Mode, r: Rib, i: nat, n: nat, route: Option<u16>)
    ensures Child(At(Put(mode, r, i, n, route), i, n), true).Nil? <==> Child(At(r, i, n), true).Nil?
  {
    if n > 0 {
      AtHead(Put(mode, r, i, n, route), i, n - 1);
      AtHead(r, i, n - 1);
      var q := if r.Nil? then Node(None, false, Nil, Nil) else r;
      PutBelowRight(mode, Child(q, Bit(i, n - 1)), i, n - 1, route);
    }
  }

  lemma TableFib(p: Poptrie, es: seq<TSlot>, own: map<Blk, nat>)
    requires Table(p, es, own)
    ensures Fib(p.H(), p.dir[..], es, own)
  {}

  lemma PutIntro(s: State, s': State, mode: Mode, prefix: u32, len: nat, route: Option<u16>, sw: nat)
    requires len <= 32 && s.hops <= s'.hops && (route.Some? ==> route.value < |s'.hops|)
    requires s'.rib == Unmark(Put(mode, s.rib, Path(prefix, len), len, route))
    requires s'.idxs == PutTable(s.idxs, KeyOf(prefix, len), route)
    requires Refreshed(s.es, s'.es, Enter(Put(mode, s.rib, Path(prefix, len), len, route), 0), prefix, len)
    requires Fib(s'.h, s'.ds, s'.es, s'.own) && Blocks(s'.h) == s'.own.Keys && Recorded(s')
    requires Publishes(s, s', sw) && Spends(s.trace, s'.trace, Demand(s.rib))
    ensures PutStep(s, s', mode, prefix, len, route)
  {}

  lemma TableMem(p: Poptrie, es: seq<TSlot>, own: map<Blk, nat>)
    requires Table(p, es, own)
    ensures p.Mem()
  {}

  lemma PutBound(idxs: map<Prefix, u16>, k: Prefix, route: Option<u16>, n: nat)
    requires Bounded(idxs, n) && (route.Some? ==> route.value < n)
    ensures Bounded(PutTable(idxs, k, route), n)
  {}

  /** Record the new state. */
  ghost method Commit(p: Poptrie, es: seq<TSlot>, own: map<Blk, nat>, r: Rib, idxs: map<Prefix, u16>)
    requires Table(p, es, own) && Blocks(p.H()) == own.Keys && TreeOK(p, r, idxs) && Clear(p, Objs(p.shape))
    requires HopsOK(p) && Bounded(idxs, p.nhops) && AllNeat(es, Enter(r, 0), p.nhops) && HopsBelow(r, p.nhops)
    modifies p`es, p`own, p`rib, p`idxs
    ensures Kept(p) && p.es == es && p.own == own && p.rib == r && p.idxs == idxs
    ensures p.H() == old(p.H()) && p.Fails() == old(p.Fails()) && p.Mem()
  {
    hide Poptrie.Mem, Poptrie.Fails, Poptrie.Foot, Table, TreeOK, Blocks, HopsOK, Objs, AllNeat, HopsBelow;
    p.FootHeld();
    Allocated(p.shape);
    HopsApart2(p, es, own);
    p.es, p.own, p.rib, p.idxs := es, own, r, idxs;
  }

  lemma HopsApart2(p: Poptrie, es: seq<TSlot>, own: map<Blk, nat>)
    requires Table(p, es, own)
    ensures p !in p.Foot() && p.Mem()
  {}

  /** The next-hop table is no part of what an update of the fast form writes. */
  lemma HopsApart(p: Poptrie)
    requires Table(p, p.es, p.own)
    ensures p.entries !in p.Foot() && p.entries as object != p.dir && p.entries as object != p.altdir
    ensures p !in p.Foot() && p.dir !in p.Foot() && p.altdir !in p.Foot() && p.dir != p.altdir
  {}

  // ----- the next-hop table

  /** The search for a known next hop; nhops when it is new. */
  method FindHop(p: Poptrie, nexthop: Hop) returns (n: nat)
    requires p.nhops <= p.entries.Length
    ensures n <= p.nhops && (n < p.nhops ==> p.entries[n] == nexthop)
    ensures n == p.nhops <==> forall i :: 0 <= i < p.nhops ==> p.entries[i] != nexthop
  {
    n := 0;
    while n < p.nhops
      invariant n <= p.nhops && forall i :: 0 <= i < n ==> p.entries[i] != nexthop
    {
      if p.entries[n] == nexthop { return; }
      n := n + 1;
    }
  }

  /** Append a new next hop. */
  method AppendHop(p: Poptrie, nexthop: Hop) returns (n: nat)
    requires HopsOK(p) && nexthop !in Hops(p) && p.nhops < FIB_SIZE
    modifies p`nhops, p.entries
    ensures HopsOK(p) && n == old(p.nhops) && Hops(p) == old(Hops(p)) + [nexthop]
  {
    n := p.nhops;
    ghost var hops := Hops(p);
    assert forall i :: 0 <= i < n ==> p.entries[i] == hops[i];
    p.entries[n] := nexthop;
    p.nhops := n + 1;
    assert Hops(p) == hops + [nexthop];
  }

  /** The index of the next hop, which is appended when it is new and there is room. */
  method HopIndex(p: Poptrie, nexthop: Hop) returns (full: bool, n: nat)
    requires HopsOK(p)
    modifies p`nhops, p.entries
    ensures HopsOK(p) && (full <==> nexthop !in old(Hops(p)) && old(p.nhops) == FIB_SIZE)
    ensures Hops(p) == if full || nexthop in old(Hops(p)) then old(Hops(p)) else old(Hops(p)) + [nexthop]
    ensures !full ==> n < |Hops(p)| && Hops(p)[n] == nexthop
  {
    full := false;
    n := FindHop(p, nexthop);
    if n == p.nhops {
      if p.nhops >= FIB_SIZE { return true, n; }
      n := AppendHop(p, nexthop);
    } else {
      assert Hops(p)[n] == nexthop;
    }
  }

  // ----- adding a route

  /** The state after the radix step of an operation. */
  lemma StepChanged(p: Poptrie, r0: Rib, mode: Mode, prefix: u32, len: nat, route: Option<u16>)
    requires len <= 32 && (len < 18 ==> Canonical(prefix, len))
    requires Table(p, p.es, p.own) && Clear(p, Objs(p.shape))
    requires p.shape.Fork? && p.radix == p.shape.o && Unmarked(r0)
    requires Shows(p.shape, null, 0, Put(mode, r0, Path(prefix, len), len, route))
    ensures Changed(p, r0, Put(mode, r0, Path(prefix, len), len, route), mode, prefix, len, route)
  {}

  /** The table agrees with the new tree when the reuse test was right. */
  lemma NowTracks(es: seq<TSlot>, es': seq<TSlot>, r0: Rib, mode: Mode, prefix: u32, len: nat, route: Option<u16>)
    requires len <= 32 && Tracking(es, Enter(r0, 0)) && Unmarked(r0)
    requires var r1 := Put(mode, r0, Path(prefix, len), len, route);
      Refreshed(es, es', Enter(r1, 0), prefix, len) && ReuseAll(es, Enter(r0, 0), Enter(r1, 0), prefix, len)
    ensures Tracking(es', Enter(Unmark(Put(mode, r0, Path(prefix, len), len, route)), 0))
  {
    hide Tracking, Refreshed, ReuseAll, Put, Path, Toward;
    var r1 := Put(mode, r0, Path(prefix, len), len, route);
    PutIsToward(mode, r0, prefix, len, route);
    EnterUnmarked(r0);
    UpdateTracks(mode, es, es', Enter(r0, 0), Enter(r1, 0), prefix, len, route);
    TrackingPlain(es', Enter(r1, 0));
    EnterPlain(r1, 0);
  }

  lemma AddTracks(es: seq<TSlot>, es': seq<TSlot>, r0: Rib, prefix: u32, len: nat, route: Option<u16>)
    requires len <= 32 && Tracking(es, Enter(r0, 0)) && Unmarked(r0)
    requires Refreshed(es, es', Enter(Put(Adding, r0, Path(prefix, len), len, route), 0), prefix, len)
    ensures Tracking(es', Enter(Unmark(Put(Adding, r0, Path(prefix, len), len, route)), 0))
  {
    hide Refreshed, ReuseAll, Put, Path, Toward, SubN, StripSlot;
    PutIsToward(Adding, r0, prefix, len, route);
    AddReuses(es, Enter(r0, 0), Enter(Put(Adding, r0, Path(prefix, len), len, route), 0), prefix, len, route);
    hide Tracking;
    NowTracks(es, es', r0, Adding, prefix, len, route);
  }

  lemma RouteKnown(r: Rib, idxs: map<Prefix, u16>, prefix: u32, len: nat)
    requires Holds(r, idxs) && len <= 32
    ensures RouteAt(r, Path(prefix, len), len) == if KeyOf(prefix, len) in idxs then Some(idxs[KeyOf(prefix, len)])
        else None
  {
    PathBound(prefix, len);
    RouteAtIsAt(r, Path(prefix, len), len);
  }

  /** The next hop is looked up or appended; routes and lookups are as before. */
  method LearnHop(p: Poptrie, nexthop: Hop) returns (full: bool, n: nat)
    requires Kept(p)
    modifies p`nhops, p.entries
    ensures Kept(p) && p.dir[..] == old(p.dir[..]) && p.H() == old(p.H()) && p.Fails() == old(p.Fails())
    ensures full <==> nexthop !in old(Hops(p)) && |old(Hops(p))| == FIB_SIZE
    ensures !full ==> n < |Hops(p)| && Hops(p)[n] == nexthop
    ensures Hops(p) == if full || nexthop in old(Hops(p)) then old(Hops(p)) else old(Hops(p)) + [nexthop]
    ensures RouteMap(p) == old(RouteMap(p)) && HopStep(old(Snap(p)), Snap(p))
  {
    hide Poptrie.Mem, Poptrie.Fails, Poptrie.Foot, Shows, Objs, Blocks, Unmarked, Holds, Height, Table,
         TreeOK, AllNeat, HopsBelow, CurExtends;
    p.FootHeld();
    HopsApart(p);
    Allocated(p.shape);
    ghost var hops, k := Hops(p), p.nhops;
    full, n := HopIndex(p, nexthop);
    assert hops <= Hops(p);
    NamedMore(p.idxs, hops, Hops(p));
    CurSelf(Enter(p.rib, 0));
    AllNeatMore(p.es, Enter(p.rib, 0), Enter(p.rib, 0), k, p.nhops);
    HopsBelowMore(p.rib, k, p.nhops);
  }

  /** The radix step of an add. */
  method InsertRadix(p: Poptrie, prefix: u32, len: nat, n: u16) returns (ok: bool)
    requires Kept(p) && len <= 32 && (len < 18 ==> Canonical(prefix, len)) && n < p.nhops
    modifies p`radix, p`shape, Objs(p.shape)
    ensures ok <==> KeyOf(prefix, len) !in p.idxs
    ensures ok ==> Ready(p, Adding, prefix, len, Some(n))
    ensures !ok ==> Kept(p)
    ensures p.Mem() && p.H() == old(p.H()) && p.Fails() == old(p.Fails()) && p.dir[..] == old(p.dir[..])
    ensures forall o :: o in Objs(p.shape) && o !in old(Objs(p.shape)) ==> fresh(o)
    ensures p.entries[..] == old(p.entries[..])
  {
    hide Poptrie.Mem, Poptrie.Fails, Poptrie.Foot, Shows, Objs, Tracking, Blocks, Put, Unmarked, Path, Canonical,
         Holds, Height, HopsOK, Table, KeyOf, Changed, AllNeat, HopsBelow;
    p.FootHeld();
    TableMem(p, p.es, p.own);
    HopsApart(p);
    Allocated(p.shape);
    RouteKnown(p.rib, p.idxs, prefix, len);
    NullOutside(p.shape);
    var node;
    ghost var sh;
    ok, node, sh := AddRoute(p.radix, prefix, len, n, 0, null, p.shape, p.rib);
    p.radix := node;
    p.shape := sh;
    if ok {
      RootFork(sh, node);
      StepChanged(p, p.rib, Adding, prefix, len, Some(n));
    }
  }

  lemma RootFork(sh: Shape, node: RadixNode)
    requires node == RootOf(sh)
    ensures sh.Fork? && node == sh.o
  {}

  lemma HopsBound(p: Poptrie)
    requires HopsOK(p)
    ensures 1 <= p.nhops <= FIB_SIZE == p.entries.Length
  {}

  lemma NullOutside(sh: Shape)
    ensures forall o: RadixNode? :: o == null ==> o !in Objs(sh)
  {}

  /** What poptrie_route_add does, from one snapshot to the next.  A full next-hop table or a known
      route is refused.  Otherwise the route is added; at every moment before sw every address is
      answered as before, and from that moment on, before anything is freed, as after.  If the fast form
      was right, these are the longest matches, and rebuilt entries are those of a build from scratch. */
  ghost predicate AddOutcome(s: State, s': State, sw: nat, ret: int, prefix: u32, len: nat, nexthop: Hop)
    requires len <= 32
  {
    var key := KeyOf(prefix, len);
    && (ret == 0 <==> !(nexthop !in s.hops && |s.hops| == FIB_SIZE) && key !in RoutesOf(s))
    && (ret != 0 ==> HopStep(s, s') && RoutesOf(s') == RoutesOf(s))
    && (ret == 0 ==>
        && RoutesOf(s') == RoutesOf(s)[key := nexthop]
        && (exists n: u16 :: PutStep(s, s', Adding, prefix, len, Some(n)))
        && Publishes(s, s', sw)
        && (Sound(s) ==>
            && AnsweredFrom(s'.trace, |s.trace|, sw, s'.hops, RoutesOf(s))
            && AnsweredFrom(s'.trace, sw, |s'.trace|, s'.hops, RoutesOf(s'))
            && (len <= 24 ==> RangeFresh(s'.es, Enter(s'.rib, 0), prefix, len))))
  }

  /** At the moments lo .. hi every address is answered with the longest match among the routes. */
  ghost predicate AnsweredFrom(t: seq<Moment>, lo: nat, hi: nat, hops: seq<Hop>, routes: map<Prefix, Hop>) {
    hi <= |t| && forall j :: lo <= j < hi ==> Answers(t[j].h, t[j].ds, hops, routes)
  }

  /** The next-hop table after an operation with this next hop. */
  function HopsAfter(hops: seq<Hop>, nexthop: Hop): seq<Hop> {
    if nexthop in hops || |hops| == FIB_SIZE then hops else hops + [nexthop]
  }

  /** The radix step of an addition and the update of the fast form, unless the route is known. */
  method PutNew(p: Poptrie, prefix: u32, len: nat, n: u16) returns (ret: int, isNew: bool, ghost sw: nat)
    requires Kept(p) && len <= 32 && (len < 18 ==> Canonical(prefix, len)) && n < p.nhops
    modifies p`root, p`dir, p`altdir, p`trace, p`rib, p`es, p`own, p`idxs, p`radix, p`shape
    modifies p.Foot(), p.dir, p.altdir, Objs(p.shape)
    ensures p.Mem() && p.Fails() >= old(p.Fails()) && p.entries[..] == old(p.entries[..]) && (ret == 0 || ret == -1)
    ensures (p.dir == old(p.dir) && p.altdir == old(p.altdir)) || (p.dir == old(p.altdir) && p.altdir == old(p.dir))
    ensures forall o :: o in Objs(p.shape) && o !in old(Objs(p.shape)) ==> fresh(o)
    ensures Spends(old(p.trace), p.trace, Demand(old(p.rib)))
    ensures isNew <==> KeyOf(prefix, len) !in old(p.idxs)
    ensures isNew && len < 18 && RightEmpty(old(p.rib), prefix, len) ==> ret == 0
    ensures isNew && len >= 18 ==> (ret == 0 <==> p.Fails() == old(p.Fails()))
    ensures !isNew ==> ret == -1 && Kept(p) && Snap(p) == old(Snap(p)) && p.Fails() == old(p.Fails())
    ensures isNew && ret < 0 ==> p.Fails() > old(p.Fails())
    ensures isNew && p.Fails() == old(p.Fails()) ==>
      && Kept(p) && PutStep(old(Snap(p)), Snap(p), Adding, prefix, len, Some(n))
      && Publishes(old(Snap(p)), Snap(p), sw)
  {
    hide Poptrie.Mem, Poptrie.Fails, Poptrie.Foot, Objs, Publishes, Canonical, KeyOf, Kept, Ready, PutStep, Count,
         RightEmpty;
    p.FootHeld();
    KeptParts(p);
    Allocated(p.shape);
    sw := 0;
    ret := -1;
    isNew := InsertRadix(p, prefix, len, n);
    if !isNew { return; }
    var ok;
    ok, sw := Finish(p, prefix, len, p.rib, Adding, Some(n));
    if ok { ret := 0; }
  }

  /** poptrie_route_add: refuse a full next-hop table or a known route, else insert it into the
      radix tree and update the fast form.  A short prefix without radix nodes in its right half is
      reported as added even if a block was refused. */
  method RouteAdd(p: Poptrie, prefix: u32, len: nat, nexthop: Hop) returns (ret: int, ghost sw: nat)
    requires Kept(p) && len <= 32 && (len < 18 ==> Canonical(prefix, len))
    modifies p, p.Foot(), p.dir, p.altdir, p.entries, Objs(p.shape)
    ensures p.Mem() && p.Fails() >= old(p.Fails())
    ensures (p.dir == old(p.dir) && p.altdir == old(p.altdir)) || (p.dir == old(p.altdir) && p.altdir == old(p.dir))
    ensures forall o :: o in Objs(p.shape) && o !in old(Objs(p.shape)) ==> fresh(o)
    ensures Spends(old(p.trace), p.trace, Demand(old(p.rib)))
    ensures (ret == 0 || ret == -1) && (len >= 18 && p.Fails() > old(p.Fails()) ==> ret == -1)
    ensures len < 18 && RightEmpty(old(p.rib), prefix, len) && KeyOf(prefix, len) !in old(p.idxs) ==>
      (nexthop in old(Hops(p)) || old(p.nhops) < FIB_SIZE ==> ret == 0)
    ensures p.Fails() == old(p.Fails()) ==>
      && Kept(p) && AddOutcome(old(Snap(p)), Snap(p), sw, ret, prefix, len, nexthop)
      && Hops(p) == HopsAfter(old(Hops(p)), nexthop) && (old(Valid(p)) ==> Valid(p))
  {
    hide Poptrie.Mem, Poptrie.Fails, Poptrie.Foot, Shows, Objs, Tracking, Refreshed, Blocks, Put, Unmarked,
         Path, Canonical, AllNeat, HopsBelow, Publishes, Sound, Valid,
         Holds, Unmark, Height, HopsOK, Table, PutTable, KeyOf, Kept, Ready, PutStep, HopStep, AddOutcome, Hops,
         Bounded, Count, RightEmpty;
    p.FootHeld();
    KeptParts(p);
    Allocated(p.shape);
    sw := 0;
    ghost var s := Snap(p);
    SoundValid(p);
    var full, n := LearnHop(p, nexthop);
    KeptParts(p);
    ghost var s1 := Snap(p);
    HopStepSound(s, s1);
    if full {
      NotAdded(s, s1, sw, prefix, len, nexthop);
      SoundValid(p);
      return -1, sw;
    }
    HopStepIdxs(s, s1);
    AllNamed(s);
    var isNew;
    ret, isNew, sw := PutNew(p, prefix, len, n);
    if !isNew {
      NotAdded(s, s1, sw, prefix, len, nexthop);
      SoundValid(p);
      return;
    }
    if ret < 0 { return; }
    if p.Fails() == old(p.Fails()) {
      KeptParts(p);
      Added(s, s1, Snap(p), sw, prefix, len, nexthop, n);
      SoundValid(p);
    }
  }

  lemma HopStepIdxs(s: State, s': State)
    requires HopStep(s, s')
    ensures s'.idxs == s.idxs && s'.es == s.es && s'.rib == s.rib
  {}

  lemma NotAdded(s: State, s': State, sw: nat, prefix: u32, len: nat, nexthop: Hop)
    requires len <= 32 && HopStep(s, s') && RoutesOf(s') == RoutesOf(s)
    requires (nexthop !in s.hops && |s.hops| == FIB_SIZE) || KeyOf(prefix, len) in RoutesOf(s)
    ensures AddOutcome(s, s', sw, -1, prefix, len, nexthop)
  {
    hide HopStep, KeyOf, Named;
  }

  lemma AllNamed(s: State)
    requires Bounded(s.idxs, |s.hops|)
    ensures forall k :: k in s.idxs <==> k in RoutesOf(s)
  {}

  // ----- what holds of every snapshot

  /** A table on values: everything stored in neat shape, every block owned once, the routes in the
      radix tree. */
  ghost predicate Consistent(s: State) {
    && Recorded(s) && Fib(s.h, s.ds, s.es, s.own) && Blocks(s.h) == s.own.Keys
    && Unmarked(s.rib) && Height(s.rib) <= 33 && Holds(s.rib, s.idxs)
    && |s.hops| > 0 && s.hops[0] == 0 && Bounded(s.idxs, |s.hops|)
    && AllNeat(s.es, Enter(s.rib, 0), |s.hops|) && HopsBelow(s.rib, |s.hops|)
  }

  /** And in agreement with its radix tree. */
  ghost predicate Sound(s: State) {
    Consistent(s) && Tracking(s.es, Enter(s.rib, 0))
  }

  lemma SoundAnswers(s: State)
    requires Sound(s)
    ensures Answers(s.h, s.ds, s.hops, RoutesOf(s))
  {
    hide Tracking, Holds, Height, Fib, EntryAt, Answers, AllNeat, HopsBelow;
    FibEntries(s.h, s.ds, s.es, s.own);
    TableAnswers(s.h, s.ds, s.es, s.rib, s.idxs, s.hops);
  }

  /** A sound fast form is determined by the radix tree. */
  lemma SoundIsFresh(s: State)
    requires Sound(s)
    ensures AllFresh(s.es, Enter(s.rib, 0))
  {
    hide Tracking, Holds, Height, Fib, AllNeat, HopsBelow, AllFresh, CurBelow;
    EnterBelow(s.rib, |s.hops|);
    TrackingIsFresh(s.es, Enter(s.rib, 0), |s.hops|);
  }

  /** The radix tree answers with the longest match, whatever the fast form says. */
  lemma RibAnswers(s: State, a: u32)
    requires Consistent(s)
    ensures Val(Enter(s.rib, 0), a) < |s.hops| && s.hops[Val(Enter(s.rib, 0), a)] == NextHop(RoutesOf(s), a)
  {
    hide Fib, Holds, AllNeat, HopsBelow, Val, NextHop, Named;
    IndexHop(s.rib, s.idxs, s.hops, a);
  }

  lemma HopStepSound(s: State, s': State)
    requires HopStep(s, s')
    ensures Consistent(s) ==> Consistent(s')
    ensures Sound(s) ==> Sound(s')
  {
    hide Fib, Tracking, Holds, Height, AllNeat, HopsBelow, CurExtends;
    if Consistent(s) {
      assert s'.hops[0] == s.hops[0];
      CurSelf(Enter(s.rib, 0));
      AllNeatMore(s.es, Enter(s.rib, 0), Enter(s.rib, 0), |s.hops|, |s'.hops|);
      HopsBelowMore(s.rib, |s.hops|, |s'.hops|);
    }
  }

  /** What every update of a route keeps, right or wrong. */
  lemma PutStepKeeps(s: State, s': State, mode: Mode, prefix: u32, len: nat, route: Option<u16>)
    requires Consistent(s) && PutStep(s, s', mode, prefix, len, route)
    ensures Consistent(s') && Extends(s.rib, s'.rib)
  {
    hide Fib, Holds, Height, Put, Refreshed, Unmark, Unmarked, PutTable, KeyOf, Bounded, Path, AllNeat, HopsBelow,
         Extends, Publishes;
    assert s'.hops[0] == s.hops[0];
    BoundedMore(s.idxs, |s.hops|, |s'.hops|);
    PutBound(s.idxs, KeyOf(prefix, len), route, |s'.hops|);
    var r1 := Put(mode, s.rib, Path(prefix, len), len, route);
    PutStaysTall(mode, s.rib, prefix, len, route);
    UnmarkHeight(r1);
    UnmarkIdentity(r1);
    PutKeeps(s.rib, s.idxs, mode, prefix, len, route);
    ShapeAfter(mode, s.es, s'.es, s.rib, prefix, len, route, |s.hops|, |s'.hops|);
  }

  lemma BoundedMore(idxs: map<Prefix, u16>, m: nat, n: nat)
    requires Bounded(idxs, m) && m <= n
    ensures Bounded(idxs, n)
  {}

  lemma PutKeeps(r: Rib, idxs: map<Prefix, u16>, mode: Mode, prefix: u32, len: nat, route: Option<u16>)
    requires len <= 32 && Holds(r, idxs)
    ensures Holds(Unmark(Put(mode, r, Path(prefix, len), len, route)), PutTable(idxs, KeyOf(prefix, len), route))
  {
    hide Path, Holds, Put, PutTable;
    PathBound(prefix, len);
    PutHolds(mode, r, idxs, Path(prefix, len), len, route);
  }

  /** An addition to a sound table leaves it sound. */
  lemma AddSound(s: State, s': State, prefix: u32, len: nat, route: Option<u16>)
    requires Sound(s) && PutStep(s, s', Adding, prefix, len, route)
    ensures Sound(s') && (len <= 24 ==> RangeFresh(s'.es, Enter(s'.rib, 0), prefix, len))
  {
    hide Fib, Tracking, Holds, Height, Put, Refreshed, Unmark, Unmarked, PutTable, KeyOf, Bounded, Path, AllNeat,
         HopsBelow, Publishes, RangeFresh, ReuseAll;
    PutStepKeeps(s, s', Adding, prefix, len, route);
    AddTracks(s.es, s'.es, s.rib, prefix, len, route);
    AddReuseAll(s.es, s.rib, prefix, len, route);
    if len <= 24 { RangeBuilt(s, s', Adding, prefix, len, route); }
  }

  lemma AddReuseAll(es: seq<TSlot>, r0: Rib, prefix: u32, len: nat, route: Option<u16>)
    requires len <= 32 && Tracking(es, Enter(r0, 0)) && Unmarked(r0)
    ensures ReuseAll(es, Enter(r0, 0), Enter(Put(Adding, r0, Path(prefix, len), len, route), 0), prefix, len)
  {
    hide ReuseAll, Put, Path, Toward, SubN, StripSlot;
    PutIsToward(Adding, r0, prefix, len, route);
    EnterUnmarked(r0);
    AddReuses(es, Enter(r0, 0), Enter(Put(Adding, r0, Path(prefix, len), len, route), 0), prefix, len, route);
  }

  /** Where the reuse test is right, the rebuilt entries are those of a build from scratch. */
  lemma RangeBuilt(s: State, s': State, mode: Mode, prefix: u32, len: nat, route: Option<u16>)
    requires Sound(s) && PutStep(s, s', mode, prefix, len, route) && len <= 24
    requires ReuseAll(s.es, Enter(s.rib, 0), Enter(Put(mode, s.rib, Path(prefix, len), len, route), 0), prefix, len)
    ensures RangeFresh(s'.es, Enter(s'.rib, 0), prefix, len)
  {
    hide Fib, Tracking, Holds, Height, Put, Refreshed, Unmark, Unmarked, PutTable, KeyOf, Bounded, Path, AllNeat,
         HopsBelow, Publishes, RangeFresh, ReuseAll, CurExtends, CurBelow, Extends, Toward;
    var r1 := Put(mode, s.rib, Path(prefix, len), len, route);
    HopsBelowMore(s.rib, |s.hops|, |s'.hops|);
    PutExtends(mode, s.rib, Path(prefix, len), len, route);
    PutBelow(mode, s.rib, Path(prefix, len), len, route, |s'.hops|);
    EnterExtends(s.rib, r1);
    EnterBelow(r1, |s'.hops|);
    EnterUnmarked(s.rib);
    PutIsToward(mode, s.rib, prefix, len, route);
    CurSelf(Enter(s.rib, 0));
    AllNeatMore(s.es, Enter(s.rib, 0), Enter(s.rib, 0), |s.hops|, |s'.hops|);
    RenewedIsFresh(mode, s.es, s'.es, Enter(s.rib, 0), Enter(r1, 0), prefix, len, route, |s'.hops|);
    EnterPlain(r1, 0);
    RangePlain(s'.es, Enter(r1, 0), prefix, len);
  }

  /** The outcome of an added route, from what its steps established. */
  lemma Added(s: State, s1: State, s2: State, sw: nat, prefix: u32, len: nat, nexthop: Hop, n: u16)
    requires len <= 32 && Consistent(s) && HopStep(s, s1) && PutStep(s1, s2, Adding, prefix, len, Some(n))
    requires n < |s1.hops| && s1.hops[n] == nexthop && s2.hops == s1.hops
    requires !(nexthop !in s.hops && |s.hops| == FIB_SIZE) && KeyOf(prefix, len) !in RoutesOf(s)
    requires Publishes(s1, s2, sw)
    ensures AddOutcome(s, s2, sw, 0, prefix, len, nexthop)
    ensures Sound(s) ==> Sound(s2)
  {
    hide Tracking, Holds, Height, Fib, EntryAt, Answers, KeyOf, Named, PutTable, Bounded, Refreshed, Put,
         Unmark, AllNeat, HopsBelow, RangeFresh, Drops, SameReads, Publishes, Sound, Recorded, AnsweredFrom;
    ConsistentBounds(s);
    NamedMore(s.idxs, s.hops, s1.hops);
    NamedPut(s1.idxs, s2.hops, KeyOf(prefix, len), Some(n));
    PutSome(RoutesOf(s), KeyOf(prefix, len), nexthop);
    HopPut(s, s1, s2, Adding, prefix, len, Some(n));
    if Sound(s) {
      HopStepSound(s, s1);
      AddSound(s1, s2, prefix, len, Some(n));
      AddedAnswers(s, s2, sw);
    }
  }

  lemma ConsistentBounds(s: State)
    requires Consistent(s)
    ensures Bounded(s.idxs, |s.hops|)
  {}

  /** A moment that serves a right snapshot answers with the longest matches. */
  lemma ServedAnswers(m: Moment, s: State, hops: seq<Hop>)
    requires Sound(s) && s.hops <= hops && Serves(m, s)
    ensures Answers(m.h, m.ds, hops, RoutesOf(s))
  {
    hide Tracking, Holds, Height, Fib, EntryAt, Answers, Named, AllNeat, HopsBelow, Bounded, Holding, SameReads;
    NamedMore(s.idxs, s.hops, hops);
    HoldingAnswers(m, s.ds, s.es, s.rib, s.idxs, hops);
  }

  lemma AddedAnswers(s: State, s': State, sw: nat)
    requires Sound(s) && Sound(s') && s.hops <= s'.hops && Publishes(s, s', sw)
    ensures AnsweredFrom(s'.trace, |s.trace|, sw, s'.hops, RoutesOf(s))
    ensures AnsweredFrom(s'.trace, sw, |s'.trace|, s'.hops, RoutesOf(s'))
  {
    hide Sound, Serves, Answers, Named, Drops;
    forall j | |s.trace| <= j < sw ensures Answers(s'.trace[j].h, s'.trace[j].ds, s'.hops, RoutesOf(s)) {
      ServedAnswers(s'.trace[j], s, s'.hops);
    }
    forall j | sw <= j < |s'.trace| ensures Answers(s'.trace[j].h, s'.trace[j].ds, s'.hops, RoutesOf(s')) {
      ServedAnswers(s'.trace[j], s', s'.hops);
    }
  }

  lemma HopServes(s0: State, s1: State)
    requires HopStep(s0, s1)
    ensures forall m: Moment :: Serves(m, s1) ==> Serves(m, s0)
  {
    hide SameReads, Holding;
  }

  lemma HopPut(s0: State, s1: State, s2: State, mode: Mode, prefix: u32, len: nat, route: Option<u16>)
    requires HopStep(s0, s1) && PutStep(s1, s2, mode, prefix, len, route)
    ensures PutStep(s0, s2, mode, prefix, len, route)
    ensures forall sw :: Publishes(s1, s2, sw) ==> Publishes(s0, s2, sw)
  {
    hide Drops, Serves, Refreshed, Fib, Put, Unmark, Recorded;
    HopServes(s0, s1);
    var sw: nat :| Publishes(s1, s2, sw);
    assert Publishes(s0, s2, sw);
  }

  lemma PutSome<H>(table: map<Prefix, H>, key: Prefix, h: H)
    ensures PutTable(table, key, Some(h)) == table[key := h]
  {}

  /** What a kept table is, on values. */
  lemma KeptParts(p: Poptrie)
    requires Kept(p)
    ensures p.Mem() && p.nhops <= FIB_SIZE == p.entries.Length && |Hops(p)| == p.nhops
    ensures p.entries !in p.Foot() && p.entries as object != p.dir && p.entries as object != p.altdir
    ensures p !in p.Foot() && p.dir !in p.Foot() && p.altdir !in p.Foot() && p.dir != p.altdir
    ensures Consistent(Snap(p)) && Bounded(p.idxs, p.nhops) && |p.trace| > 0
  {
    hide Fib, Holds, AllNeat, HopsBelow, Shows, Height, Unmarked;
  }

  /** A kept table is valid when its snapshot is sound. */
  lemma SoundValid(p: Poptrie)
    requires Kept(p)
    ensures Valid(p) <==> Sound(Snap(p))
  {
    hide Kept, Tracking, Consistent;
    KeptParts(p);
  }
}
