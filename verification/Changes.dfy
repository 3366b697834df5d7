/** poptrie_route_change, poptrie_route_update and poptrie_route_del.  They keep the radix tree, the
    ownership of blocks and the next-hop table right in every case; the fast form answers every
    address like the radix tree if and only if the reuse test kept no outdated slot. */
module Changes {
  import opened Bits
  import opened BuddyModel
  import opened Rib
  import opened Trie
  import opened TrieUpdate
  import opened Neatness
  import opened Radix
  import opened Triangle
  import opened Store
  import opened Trace
  import opened Cost
  import opened PoptrieState
  import opened Build
  import opened Entries
  import opened FibTable
  import opened Direct
  import opened Subtree
  import opened FastLookup
  import opened Refinement
  import opened Specifics
  import opened TableShape
  import opened Routes

  /** The fast form finds the index that the radix tree gives, for every address. */
  ghost predicate Agree(s: State) {
    forall a: u32 :: AgreeAt(s.h, s.ds, s.rib, a)
  }

  ghost predicate AgreeAt(h: Heap, ds: seq<u32>, r: Rib, a: u32) {
    FastIndex(h, ds, a) == Val(Enter(r, 0), a)
  }

  /** In no slot that the update keeps, because neither child of its position is marked, does a missing
      half inherit the changed route: the condition under which testing those marks is enough. */
  ghost predicate ReuseRight(es: seq<TSlot>, r0: Rib, prefix: u32, len: nat, route: Option<u16>)
    requires len <= 32
  {
    ReuseAll(es, Enter(r0, 0), Enter(Put(Changing, r0, Path(prefix, len), len, route), 0), prefix, len)
  }

  lemma RightAgree(h: Heap, ds: seq<u32>, es: seq<TSlot>, own: map<Blk, nat>, r: Rib)
    requires Fib(h, ds, es, own)
    ensures AllRight(es, Enter(r, 0)) <==> forall a: u32 :: AgreeAt(h, ds, r, a)
  {
    hide EntryAt, Val, FastIndex, Look, StripSlot, Chunk, Top, Fib;
    FibEntries(h, ds, es, own);
    forall a: u32 ensures AgreeAt(h, ds, r, a) == RightAt(es, Enter(r, 0), a) {
      Index18(a);
      EntryLook(h, ds, a, es[Chunk(a, 0, 18)]);
    }
  }

  /** Clearing marks does not change what is right. */
  lemma RightPlain(es: seq<TSlot>, r: Rib)
    ensures AllRight(es, Enter(Unmark(r), 0)) <==> AllRight(es, Enter(r, 0))
  {
    hide Val, Look, StripSlot, Chunk;
    EnterPlain(r, 0);
    forall a: u32 ensures RightAt(es, Enter(Unmark(r), 0), a) ==
        RightAt(es, Enter(r, 0), a) { ValPlain(Enter(r, 0), a); }
  }

  /** The refreshed table after a changed or deleted route. */
  lemma RefreshedOutcome(h: Heap, ds: seq<u32>, es: seq<TSlot>, es': seq<TSlot>, own: map<Blk, nat>, r0: Rib,
                      prefix: u32, len: nat, route: Option<u16>)
    requires len <= 32 && Tracking(es, Enter(r0, 0)) && Unmarked(r0) && Height(r0) <= 33
    requires var r1 := Put(Changing, r0, Path(prefix, len), len, route);
      Refreshed(es, es', Enter(r1, 0), prefix, len) && Fib(h, ds, es', own)
    ensures var r1 := Put(Changing, r0, Path(prefix, len), len, route);
      && ((forall a: u32 :: AgreeAt(h, ds, Unmark(r1), a)) <==> ReuseRight(es, r0, prefix, len, route))
      && (ReuseRight(es, r0, prefix, len, route) ==> Tracking(es', Enter(Unmark(r1), 0)))
  {
    hide Tracking, Refreshed, ReuseAll, Put, Path, Toward, Fib, Unmark, AllRight, AgreeAt, Top, Height, Tall;
    var r1 := Put(Changing, r0, Path(prefix, len), len, route);
    PutIsToward(Changing, r0, prefix, len, route);
    PutStaysTall(Changing, r0, prefix, len, route);
    EnterUnmarked(r0);
    ChangeRightIff(es, es', Enter(r0, 0), Enter(r1, 0), prefix, len, route);
    RightPlain(es', r1);
    RightAgree(h, ds, es', own, Unmark(r1));
    if ReuseAll(es, Enter(r0, 0), Enter(r1, 0), prefix, len) {
      NowTracks(es, es', r0, Changing, prefix, len, route);
    }
  }

  /** What setting or deleting a route that existed does.  If the fast form was right, it is right
      after it for every address exactly when no outdated slot was kept, and a caller who knows of
      no route of length 25 or 31 below the changed one knows that none was. */
  ghost predicate SetOutcome(s: State, s': State, prefix: u32, len: nat, route: Option<u16>)
    requires len <= 32
  {
    && PutStep(s, s', Changing, prefix, len, route)
    && (Sound(s) ==>
        && (Agree(s') <==> ReuseRight(s.es, s.rib, prefix, len, route))
        && (ReuseRight(s.es, s.rib, prefix, len, route) ==> Sound(s'))
        && (ReuseRight(s.es, s.rib, prefix, len, route) && len <= 24 ==>
          RangeFresh(s'.es, Enter(s'.rib, 0), prefix, len))
        && (NoHalfRoute(RoutesOf(s), prefix, len) ==> ReuseRight(s.es, s.rib, prefix, len, route)))
  }

  lemma SetStep(s: State, s': State, prefix: u32, len: nat, route: Option<u16>)
    requires len <= 32 && Consistent(s) && PutStep(s, s', Changing, prefix, len, route)
    ensures SetOutcome(s, s', prefix, len, route)
  {
    hide Fib, Tracking, Holds, Height, Put, Refreshed, Unmark, Unmarked, PutTable, KeyOf, Bounded, Path, AllNeat,
         HopsBelow, Publishes, RangeFresh, ReuseAll, AgreeAt, NoHalfRoute, Extends, Named;
    if Sound(s) {
      PutStepKeeps(s, s', Changing, prefix, len, route);
      RefreshedOutcome(s'.h, s'.ds, s.es, s'.es, s'.own, s.rib, prefix, len, route);
      if ReuseRight(s.es, s.rib, prefix, len, route) && len <= 24 { RangeBuilt(s, s', Changing, prefix, len, route); }
      if NoHalfRoute(RoutesOf(s), prefix, len) { NoHalfRouteRight(s, prefix, len, route); }
    }
  }

  lemma NoHalfRouteRight(s: State, prefix: u32, len: nat, route: Option<u16>)
    requires Sound(s) && len <= 32 && NoHalfRoute(RoutesOf(s), prefix, len)
    ensures ReuseRight(s.es, s.rib, prefix, len, route)
  {
    hide Fib, Holds, Height, Put, Unmarked, Path, AllNeat, HopsBelow, ReuseAll, Tall, Named;
    AllNamed(s);
    assert NoHalfRoute(s.idxs, prefix, len);
    PutStaysTall(Changing, s.rib, prefix, len, route);
    NoHalfRouteReuse(s.es, s.rib, s.idxs, prefix, len, route);
  }

  /** The update of the fast form after a route was changed or deleted, or added by an update. */
  method FinishRoute(p: Poptrie, prefix: u32, len: nat, ghost mode: Mode, ghost route: Option<u16>) returns (ok: bool)
    requires len <= 32 && Ready(p, mode, prefix, len, route) && Consistent(Snap(p))
    modifies p`root, p`dir, p`altdir, p`trace, p`rib, p`es, p`own, p`idxs, p.Foot(), p.dir, p.altdir, Objs(p.shape)
    ensures p.Mem() && p.Fails() >= old(p.Fails()) && (!ok ==> p.Fails() > old(p.Fails()))
    ensures (p.dir == old(p.dir) && p.altdir == old(p.altdir)) || (p.dir == old(p.altdir) && p.altdir == old(p.dir))
    ensures p.entries[..] == old(p.entries[..])
    ensures Spends(old(p.trace), p.trace, Demand(old(p.rib)))
    ensures len >= 18 ==> (ok <==> p.Fails() == old(p.Fails()))
    ensures p.Fails() == old(p.Fails()) ==>
      && Kept(p) && PutStep(old(Snap(p)), Snap(p), mode, prefix, len, route)
      && (mode == Adding ==> old(Sound(Snap(p))) ==> Sound(Snap(p)))
      && (mode == Changing ==> SetOutcome(old(Snap(p)), Snap(p), prefix, len, route))
  {
    hide Poptrie.Mem, Poptrie.Fails, Poptrie.Foot, Shows, Objs, Tracking, Refreshed, Blocks, Put, Unmarked,
         Path, Canonical, AllNeat, HopsBelow, Consistent, Sound,
         Holds, Unmark, Height, HopsOK, Table, PutTable, KeyOf, Kept, Ready, ReuseRight, AgreeAt, Fib, PutStep,
         SetOutcome, RangeFresh, Publishes;
    ReadyParts(p, mode, prefix, len, route);
    ghost var s := Snap(p);
    ghost var sw;
    ok, sw := Finish(p, prefix, len, p.rib, mode, route);
    if p.Fails() == old(p.Fails()) {
      if mode == Adding {
        if Sound(s) { AddSound(s, Snap(p), prefix, len, route); }
      } else {
        SetStep(s, Snap(p), prefix, len, route);
      }
    }
  }

  lemma ReadyParts(p: Poptrie, mode: Mode, prefix: u32, len: nat, route: Option<u16>)
    requires Ready(p, mode, prefix, len, route)
    ensures p.Mem() && p.nhops <= p.entries.Length
  {}

  // ----- the radix steps

  /** The radix step of a change. */
  method ChangeRadix(p: Poptrie, prefix: u32, len: nat, n: u16) returns (found: bool, changed: bool)
    requires Kept(p) && len <= 32 && (len < 18 ==> Canonical(prefix, len)) && n < p.nhops
    modifies Objs(p.shape)
    ensures found <==> KeyOf(prefix, len) in p.idxs
    ensures changed <==> found && p.idxs[KeyOf(prefix, len)] != n
    ensures changed ==> Ready(p, Changing, prefix, len, Some(n))
    ensures !changed ==> Kept(p)
    ensures p.Mem() && p.H() == old(p.H()) && p.Fails() == old(p.Fails()) && p.dir[..] == old(p.dir[..])
    ensures p.entries[..] == old(p.entries[..])
  {
    hide Poptrie.Mem, Poptrie.Fails, Poptrie.Foot, Shows, Objs, Tracking, Blocks, Put, Unmarked, Path, Canonical,
         Holds, Height, HopsOK, Table, KeyOf, Changed, AllNeat, HopsBelow;
    p.FootHeld();
    TableMem(p, p.es, p.own);
    HopsApart(p);
    Allocated(p.shape);
    RouteKnown(p.rib, p.idxs, prefix, len);
    found, changed := ChangeRoute(p.radix, prefix, len, n, 0, null, p.shape, p.rib);
    if changed {
      PutForked(p.shape, Changing, p.rib, prefix, len, Some(n));
      StepChanged(p, p.rib, Changing, prefix, len, Some(n));
    }
  }

  lemma PutForked(sh: Shape, mode: Mode, r: Rib, prefix: u32, len: nat, route: Option<u16>)
    requires len <= 32 && Shows(sh, null, 0, Put(mode, r, Path(prefix, len), len, route))
    ensures sh.Fork?
  {
    hide Shows;
    if sh.Empty? { ShowsEmpty(null, 0, Put(mode, r, Path(prefix, len), len, route)); }
  }

  /** The radix step of an update. */
  method UpdateRadix(p: Poptrie, prefix: u32, len: nat, n: u16) returns (changed: bool)
    requires Kept(p) && len <= 32 && (len < 18 ==> Canonical(prefix, len)) && n < p.nhops
    modifies p`radix, p`shape, Objs(p.shape)
    ensures changed <==> !(KeyOf(prefix, len) in p.idxs && p.idxs[KeyOf(prefix, len)] == n)
    ensures changed ==> Ready(p, if KeyOf(prefix, len) in p.idxs then Changing else Adding, prefix, len, Some(n))
    ensures !changed ==> Kept(p)
    ensures p.Mem() && p.H() == old(p.H()) && p.Fails() == old(p.Fails()) && p.dir[..] == old(p.dir[..])
    ensures forall o :: o in Objs(p.shape) && o !in old(Objs(p.shape)) ==> fresh(o)
    ensures p.entries[..] == old(p.entries[..])
  {
    hide Poptrie.Mem, Poptrie.Fails, Poptrie.Foot, Shows, Objs, Tracking, Blocks, Put, Unmarked, Path, Canonical,
         Holds, Height, HopsOK, Table, KeyOf, Changed, AllNeat, HopsBelow;
    p.FootHeld();
    TableMem(p, p.es, p.own);
    HopsApart(p);
    Allocated(p.shape);
    RouteKnown(p.rib, p.idxs, prefix, len);
    NullOutside(p.shape);
    ghost var mode := if KeyOf(prefix, len) in p.idxs then Changing else Adding;
    var node;
    ghost var sh;
    changed, node, sh := UpdateRoute(p.radix, prefix, len, n, 0, null, p.shape, p.rib);
    p.radix := node;
    p.shape := sh;
    if changed {
      RootFork(sh, node);
      StepChanged(p, p.rib, mode, prefix, len, Some(n));
    }
  }

  /** The radix step of a deletion. */
  method DelRadix(p: Poptrie, prefix: u32, len: nat) returns (found: bool)
    requires Kept(p) && len <= 32 && (len < 18 ==> Canonical(prefix, len))
    modifies Objs(p.shape)
    ensures found <==> KeyOf(prefix, len) in p.idxs
    ensures found ==> Ready(p, Changing, prefix, len, None)
    ensures !found ==> Kept(p)
    ensures p.Mem() && p.H() == old(p.H()) && p.Fails() == old(p.Fails()) && p.dir[..] == old(p.dir[..])
    ensures p.entries[..] == old(p.entries[..])
  {
    hide Poptrie.Mem, Poptrie.Fails, Poptrie.Foot, Shows, Objs, Tracking, Blocks, Put, Unmarked, Path, Canonical,
         Holds, Height, HopsOK, Table, KeyOf, Changed, AllNeat, HopsBelow;
    p.FootHeld();
    TableMem(p, p.es, p.own);
    HopsApart(p);
    Allocated(p.shape);
    RouteKnown(p.rib, p.idxs, prefix, len);
    NullOutside(p.shape);
    found := DelRoute(p.radix, prefix, len, 0, null, p.shape, p.rib);
    if found {
      PutForked(p.shape, Changing, p.rib, prefix, len, None);
      StepChanged(p, p.rib, Changing, prefix, len, None);
    }
  }

  // ----- the operations

  /** A change or deletion here is known to be safe: there is nothing to change, or no route of length
      25 or 31 below it. */
  predicate Harmless(routes: map<Prefix, Hop>, prefix: u32, len: nat)
    requires len <= 32
  {
    KeyOf(prefix, len) !in routes || NoHalfRoute(routes, prefix, len)
  }

  /** What poptrie_route_change does: an absent route is refused, a present one gets the next hop. */
  ghost predicate ChangeOutcome(s: State, s': State, ret: int, prefix: u32, len: nat, nexthop: Hop)
    requires len <= 32
  {
    var key := KeyOf(prefix, len);
    && (ret == 0 <==> key in RoutesOf(s))
    && RoutesOf(s') == (if ret == 0 then RoutesOf(s)[key := nexthop] else RoutesOf(s))
    && if key in RoutesOf(s) && RoutesOf(s)[key] != nexthop
       then exists n: u16 :: SetOutcome(s, s', prefix, len, Some(n))
       else HopStep(s, s')
  }

  /** The next hop of a route is told by its index. */
  lemma IndexTells(p: Poptrie, key: Prefix, n: nat, nexthop: Hop)
    requires Kept(p) && n < |Hops(p)| && Hops(p)[n] == nexthop
    ensures key in p.idxs <==> key in RouteMap(p)
    ensures key in p.idxs ==> (RouteMap(p)[key] == nexthop <==> p.idxs[key] == n)
  {
    hide Table, TreeOK, Blocks, AllNeat, HopsBelow;
    if key in p.idxs {
      var m := p.idxs[key];
      if m < n { assert p.entries[m] != p.entries[n]; }
      if n < m { assert p.entries[n] != p.entries[m]; }
    }
  }

  /** poptrie_route_change: refuse an absent route, replace a different next hop. */
  method RouteChange(p: Poptrie, prefix: u32, len: nat, nexthop: Hop) returns (ret: int)
    requires Kept(p) && len <= 32 && (len < 18 ==> Canonical(prefix, len))
    requires |Hops(p)| < FIB_SIZE || nexthop in Hops(p)
    modifies p, p.Foot(), p.dir, p.altdir, p.entries, Objs(p.shape)
    ensures p.Mem() && p.Fails() >= old(p.Fails())
    ensures (p.dir == old(p.dir) && p.altdir == old(p.altdir)) || (p.dir == old(p.altdir) && p.altdir == old(p.dir))
    ensures forall o :: o in Objs(p.shape) && o !in old(Objs(p.shape)) ==> fresh(o)
    ensures Spends(old(p.trace), p.trace, Demand(old(p.rib)))
    ensures (ret == 0 || ret == -1) && (len >= 18 && p.Fails() > old(p.Fails()) ==> ret == -1)
    ensures p.Fails() == old(p.Fails()) ==>
      && Kept(p) && ChangeOutcome(old(Snap(p)), Snap(p), ret, prefix, len, nexthop)
      && Hops(p) == HopsAfter(old(Hops(p)), nexthop)
      && (old(Valid(p)) && Harmless(old(RouteMap(p)), prefix, len) ==> Valid(p))
  {
    hide Poptrie.Mem, Poptrie.Fails, Poptrie.Foot, Shows, Objs, Tracking, Blocks, Put, Unmarked, Path, Canonical,
         Holds, Unmark, Height, HopsOK, Table, KeyOf, Kept, Ready, Agree, ReuseRight, PutStep, HopStep, Hops,
         ChangeOutcome, Bounded, SetOutcome, Sound, Count, Consistent, Valid, AllNeat, HopsBelow, Harmless;
    p.FootHeld();
    KeptParts(p);
    Allocated(p.shape);
    ghost var s := Snap(p);
    SoundValid(p);
    var full, n := LearnHop(p, nexthop);
    KeptParts(p);
    ghost var s1 := Snap(p);
    HopStepSound(s, s1);
    HopStepIdxs(s, s1);
    IndexTells(p, KeyOf(prefix, len), n, nexthop);
    var found, changed := ChangeRadix(p, prefix, len, n);
    if !found {
      NotChanged(s, s1, -1, prefix, len, nexthop);
      SoundValid(p);
      return -1;
    }
    if !changed {
      NotChanged(s, s1, 0, prefix, len, nexthop);
      SoundValid(p);
      return 0;
    }
    var ok := FinishRoute(p, prefix, len, Changing, Some(n));
    if !ok { return -1; }
    ret := 0;
    if p.Fails() == old(p.Fails()) {
      KeptParts(p);
      WasChanged(s, s1, Snap(p), prefix, len, nexthop, n);
      SoundValid(p);
    }
  }

  lemma NotChanged(s: State, s1: State, ret: int, prefix: u32, len: nat, nexthop: Hop)
    requires len <= 32 && HopStep(s, s1) && RoutesOf(s1) == RoutesOf(s)
    requires var key := KeyOf(prefix, len);
      if ret == 0 then key in RoutesOf(s) && RoutesOf(s)[key] == nexthop else key !in RoutesOf(s)
    ensures ChangeOutcome(s, s1, ret, prefix, len, nexthop)
  {
    hide HopStep, KeyOf, Named;
    var key := KeyOf(prefix, len);
    if ret == 0 { assert RoutesOf(s)[key := nexthop] == RoutesOf(s); }
  }

  lemma NewRoutes(s1: State, s2: State, mode: Mode, prefix: u32, len: nat, nexthop: Hop, n: u16)
    requires PutStep(s1, s2, mode, prefix, len, Some(n)) && s2.hops == s1.hops && Bounded(s1.idxs, |s1.hops|)
    requires n < |s1.hops| && s1.hops[n] == nexthop
    ensures RoutesOf(s2) == RoutesOf(s1)[KeyOf(prefix, len) := nexthop]
  {
    hide KeyOf, Named, PutTable, Bounded, Refreshed, Put, Unmark, Fib, Publishes;
    NamedPut(s1.idxs, s2.hops, KeyOf(prefix, len), Some(n));
    PutSome(RoutesOf(s1), KeyOf(prefix, len), nexthop);
  }

  /** Appending a next hop first makes no difference. */
  lemma SetAfterHop(s: State, s1: State, s2: State, prefix: u32, len: nat, route: Option<u16>)
    requires HopStep(s, s1) && RoutesOf(s1) == RoutesOf(s) && len <= 32 && SetOutcome(s1, s2, prefix, len, route)
    ensures SetOutcome(s, s2, prefix, len, route)
    ensures Sound(s) && NoHalfRoute(RoutesOf(s), prefix, len) ==> Sound(s2)
  {
    hide PutStep, Agree, ReuseRight, Sound, Consistent, Named, NoHalfRoute, RangeFresh;
    HopPut(s, s1, s2, Changing, prefix, len, route);
    HopStepSound(s, s1);
  }

  lemma WasChanged(s: State, s1: State, s2: State, prefix: u32, len: nat, nexthop: Hop, n: u16)
    requires HopStep(s, s1) && RoutesOf(s1) == RoutesOf(s) && len <= 32
    requires SetOutcome(s1, s2, prefix, len, Some(n))
    requires s2.hops == s1.hops && Bounded(s1.idxs, |s1.hops|) && n < |s1.hops| && s1.hops[n] == nexthop
    requires var key := KeyOf(prefix, len); key in RoutesOf(s) && RoutesOf(s)[key] != nexthop
    ensures ChangeOutcome(s, s2, 0, prefix, len, nexthop)
    ensures Sound(s) && Harmless(RoutesOf(s), prefix, len) ==> Sound(s2)
  {
    hide KeyOf, Named, PutTable, Bounded, PutStep, Agree, ReuseRight, Sound, NoHalfRoute, HopStep, RangeFresh;
    NewRoutes(s1, s2, Changing, prefix, len, nexthop, n);
    SetAfterHop(s, s1, s2, prefix, len, Some(n));
  }

  /** What poptrie_route_update does: the route gets the next hop whether it was there or not. */
  ghost predicate UpdateOutcome(s: State, s': State, prefix: u32, len: nat, nexthop: Hop)
    requires len <= 32
  {
    var key := KeyOf(prefix, len);
    && RoutesOf(s') == RoutesOf(s)[key := nexthop]
    && if key !in RoutesOf(s) then exists n: u16 :: PutStep(s, s', Adding, prefix, len, Some(n))
       else if RoutesOf(s)[key] != nexthop then exists n: u16 :: SetOutcome(s, s', prefix, len, Some(n))
       else HopStep(s, s')
  }

  /** poptrie_route_update: add the route if it is absent, replace its next hop if it differs. */
  method RouteUpdate(p: Poptrie, prefix: u32, len: nat, nexthop: Hop) returns (ret: int)
    requires Kept(p) && len <= 32 && (len < 18 ==> Canonical(prefix, len))
    requires |Hops(p)| < FIB_SIZE || nexthop in Hops(p)
    modifies p, p.Foot(), p.dir, p.altdir, p.entries, Objs(p.shape)
    ensures p.Mem() && p.Fails() >= old(p.Fails())
    ensures (p.dir == old(p.dir) && p.altdir == old(p.altdir)) || (p.dir == old(p.altdir) && p.altdir == old(p.dir))
    ensures forall o :: o in Objs(p.shape) && o !in old(Objs(p.shape)) ==> fresh(o)
    ensures Spends(old(p.trace), p.trace, Demand(old(p.rib)))
    ensures (ret == 0 || ret == -1) && (len >= 18 && p.Fails() > old(p.Fails()) ==> ret == -1)
    ensures p.Fails() == old(p.Fails()) ==>
      && ret == 0 && Kept(p) && UpdateOutcome(old(Snap(p)), Snap(p), prefix, len, nexthop)
      && Hops(p) == HopsAfter(old(Hops(p)), nexthop)
      && (old(Valid(p)) && Harmless(old(RouteMap(p)), prefix, len) ==> Valid(p))
  {
    hide Poptrie.Mem, Poptrie.Fails, Poptrie.Foot, Shows, Objs, Tracking, Blocks, Put, Unmarked, Path, Canonical,
         Holds, Unmark, Height, HopsOK, Table, KeyOf, Kept, Ready, Agree, ReuseRight, PutStep, HopStep, Hops,
         UpdateOutcome, Bounded, SetOutcome, Sound, Count, Consistent, Valid, AllNeat, HopsBelow, Harmless;
    p.FootHeld();
    KeptParts(p);
    Allocated(p.shape);
    ghost var s := Snap(p);
    SoundValid(p);
    var full, n := LearnHop(p, nexthop);
    KeptParts(p);
    ghost var s1 := Snap(p);
    HopStepSound(s, s1);
    HopStepIdxs(s, s1);
    IndexTells(p, KeyOf(prefix, len), n, nexthop);
    ghost var mode := if KeyOf(prefix, len) in p.idxs then Changing else Adding;
    var changed := UpdateRadix(p, prefix, len, n);
    if !changed {
      NotUpdated(s, s1, prefix, len, nexthop);
      SoundValid(p);
      return 0;
    }
    var ok := FinishRoute(p, prefix, len, mode, Some(n));
    if !ok { return -1; }
    ret := 0;
    if p.Fails() == old(p.Fails()) {
      KeptParts(p);
      WasUpdated(s, s1, Snap(p), mode, prefix, len, nexthop, n);
      SoundValid(p);
    }
  }

  lemma NotUpdated(s: State, s1: State, prefix: u32, len: nat, nexthop: Hop)
    requires len <= 32 && HopStep(s, s1) && RoutesOf(s1) == RoutesOf(s)
    requires var key := KeyOf(prefix, len); key in RoutesOf(s) && RoutesOf(s)[key] == nexthop
    ensures UpdateOutcome(s, s1, prefix, len, nexthop)
  {
    hide HopStep, KeyOf, Named;
    assert RoutesOf(s)[KeyOf(prefix, len) := nexthop] == RoutesOf(s);
  }

  lemma WasUpdated(s: State, s1: State, s2: State, mode: Mode, prefix: u32, len: nat, nexthop: Hop, n: u16)
    requires HopStep(s, s1) && RoutesOf(s1) == RoutesOf(s) && len <= 32
    requires PutStep(s1, s2, mode, prefix, len, Some(n))
    requires mode == Changing ==> SetOutcome(s1, s2, prefix, len, Some(n))
    requires mode == Adding ==> Sound(s1) ==> Sound(s2)
    requires s2.hops == s1.hops && Bounded(s1.idxs, |s1.hops|) && n < |s1.hops| && s1.hops[n] == nexthop
    requires var key := KeyOf(prefix, len);
      if mode == Changing then key in RoutesOf(s) && RoutesOf(s)[key] != nexthop else key !in RoutesOf(s)
    ensures UpdateOutcome(s, s2, prefix, len, nexthop)
    ensures Sound(s) && Harmless(RoutesOf(s), prefix, len) ==> Sound(s2)
  {
    hide KeyOf, Named, PutTable, Bounded, PutStep, Agree, ReuseRight, Sound, NoHalfRoute, HopStep, SetOutcome;
    NewRoutes(s1, s2, mode, prefix, len, nexthop, n);
    HopPut(s, s1, s2, mode, prefix, len, Some(n));
    HopStepSound(s, s1);
    if mode == Changing { SetAfterHop(s, s1, s2, prefix, len, Some(n)); }
  }

  /** What poptrie_route_del does: an absent route is refused, a present one deleted. */
  ghost predicate DelOutcome(s: State, s': State, ret: int, prefix: u32, len: nat)
    requires len <= 32
  {
    var key := KeyOf(prefix, len);
    && (ret == 0 <==> key in RoutesOf(s))
    && RoutesOf(s') == RoutesOf(s) - {key}
    && if ret == 0 then SetOutcome(s, s', prefix, len, None) else s' == s
  }

  /** poptrie_route_del: refuse an absent route, else delete it. */
  method RouteDel(p: Poptrie, prefix: u32, len: nat) returns (ret: int)
    requires Kept(p) && len <= 32 && (len < 18 ==> Canonical(prefix, len))
    modifies p, p.Foot(), p.dir, p.altdir, p.entries, Objs(p.shape)
    ensures p.Mem() && p.Fails() >= old(p.Fails())
    ensures (p.dir == old(p.dir) && p.altdir == old(p.altdir)) || (p.dir == old(p.altdir) && p.altdir == old(p.dir))
    ensures forall o :: o in Objs(p.shape) && o !in old(Objs(p.shape)) ==> fresh(o)
    ensures Spends(old(p.trace), p.trace, Demand(old(p.rib)))
    ensures (ret == 0 || ret == -1) && (len >= 18 && p.Fails() > old(p.Fails()) ==> ret == -1)
    ensures p.Fails() == old(p.Fails()) ==>
      && Kept(p) && DelOutcome(old(Snap(p)), Snap(p), ret, prefix, len) && Hops(p) == old(Hops(p))
      && (old(Valid(p)) && Harmless(old(RouteMap(p)), prefix, len) ==> Valid(p))
  {
    hide Poptrie.Mem, Poptrie.Fails, Poptrie.Foot, Shows, Objs, Tracking, Blocks, Put, Unmarked, Path, Canonical,
         Holds, Unmark, Height, HopsOK, Table, KeyOf, Kept, Ready, Agree, ReuseRight, PutStep, DelOutcome, Hops,
         Bounded, SetOutcome, Sound, Consistent, Valid, AllNeat, HopsBelow, Harmless;
    p.FootHeld();
    KeptParts(p);
    Allocated(p.shape);
    ghost var s := Snap(p);
    SoundValid(p);
    AllNamed(s);
    var found := DelRadix(p, prefix, len);
    if !found {
      NotDeleted(s, prefix, len);
      SoundValid(p);
      return -1;
    }
    var ok := FinishRoute(p, prefix, len, Changing, None);
    if !ok { return -1; }
    ret := 0;
    if p.Fails() == old(p.Fails()) {
      KeptParts(p);
      WasDeleted(s, Snap(p), prefix, len);
      SoundValid(p);
    }
  }

  lemma NotDeleted(s: State, prefix: u32, len: nat)
    requires len <= 32 && KeyOf(prefix, len) !in RoutesOf(s)
    ensures DelOutcome(s, s, -1, prefix, len)
  {
    hide KeyOf, Named;
    assert RoutesOf(s) - {KeyOf(prefix, len)} == RoutesOf(s);
  }

  lemma WasDeleted(s: State, s': State, prefix: u32, len: nat)
    requires len <= 32 && KeyOf(prefix, len) in RoutesOf(s) && SetOutcome(s, s', prefix, len, None)
    requires s'.hops == s.hops && Bounded(s.idxs, |s.hops|)
    ensures DelOutcome(s, s', 0, prefix, len)
    ensures Sound(s) && Harmless(RoutesOf(s), prefix, len) ==> Sound(s')
  {
    hide KeyOf, Named, Bounded, Agree, ReuseRight, Refreshed, Put, Unmark, Fib, Publishes, Sound, NoHalfRoute,
        RangeFresh;
    NamedPut(s.idxs, s.hops, KeyOf(prefix, len), None);
  }
}
