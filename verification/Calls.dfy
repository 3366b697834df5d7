/** Whole runs over calls: any sequence of operations on a routing table, what it does to the routes,
    when the fast form stays right, and a sequence after which it is wrong. */
module Calls {
  import opened Bits
  import opened Rib
  import opened Trie
  import opened Radix
  import opened Store
  import opened Trace
  import opened Cost
  import opened PoptrieState
  import opened FibTable
  import opened Direct
  import opened Subtree
  import opened FastLookup
  import opened TableShape
  import opened Specifics
  import opened Routes
  import opened Changes
  import opened Capacity
  import opened Runs

  datatype Op =
    | Add(prefix: u32, len: nat, nexthop: Hop)
    | Change(prefix: u32, len: nat, nexthop: Hop)
    | Update(prefix: u32, len: nat, nexthop: Hop)
    | Delete(prefix: u32, len: nat)

  /** A prefix of at most 32 bits, without host bits if it is shorter than the direct index. */
  predicate Proper(op: Op) {
    op.len <= 32 && (op.len < 18 ==> Canonical(op.prefix, op.len))
  }

  predicate AllProper(ops: seq<Op>) {
    forall op :: op in ops ==> Proper(op)
  }

  /** The routes and the next hops known. */
  datatype Known = Known(routes: map<Prefix, Hop>, hops: seq<Hop>)

  ghost function KnownOf(p: Poptrie): Known
    reads p`idxs, p`nhops, p.entries
  {
    Known(RouteMap(p), Hops(p))
  }

  /** What an operation does to a finite map of routes: add rejects a present route, or a new next hop
      when the table is full; change and delete ignore an absent one. */
  function Apply(t: Known, op: Op): Known
    requires Proper(op)
  {
    var key := KeyOf(op.prefix, op.len);
    match op
    case Add(_, _, h) =>
      Known(if key in t.routes || (h !in t.hops && |t.hops| == FIB_SIZE) then t.routes else t.routes[key := h],
            HopsAfter(t.hops, h))
    case Change(_, _, h) => Known(if key in t.routes then t.routes[key := h] else t.routes, HopsAfter(t.hops, h))
    case Update(_, _, h) => Known(t.routes[key := h], HopsAfter(t.hops, h))
    case Delete(_, _) => Known(t.routes - {key}, t.hops)
  }

  function ApplyAll(t: Known, ops: seq<Op>): Known
    requires AllProper(ops)
  {
    if ops == [] then t else Apply(ApplyAll(t, ops[..|ops| - 1]), ops[|ops| - 1])
  }

  /** Changing and updating append a new next hop without looking for room. */
  predicate Room(t: Known, op: Op) {
    op.Change? || op.Update? ==> |t.hops| < FIB_SIZE || op.nexthop in t.hops
  }

  /** The reuse test is known to be right for the operation. */
  predicate Gentle(t: Known, op: Op)
    requires Proper(op)
  {
    op.Add? || Harmless(t.routes, op.prefix, op.len)
  }

  ghost predicate RoomAll(t: Known, ops: seq<Op>)
    requires AllProper(ops)
  {
    forall i :: 0 <= i < |ops| ==> Room(ApplyAll(t, ops[..i]), ops[i])
  }

  ghost predicate GentleAll(t: Known, ops: seq<Op>)
    requires AllProper(ops)
  {
    forall i :: 0 <= i < |ops| ==> Gentle(ApplyAll(t, ops[..i]), ops[i])
  }

  /** Arenas that have room for whatever a table with this radix tree and n more operations needs. */
  ghost predicate Roomy(p: Poptrie, n: nat)
    reads p`rib
  {
    Ample(p.nodes.Length, p.leaves.Length, Count(p.rib) + 33 * n)
  }

  /** What an operation does, from one snapshot to the next. */
  ghost predicate Performs(s: State, s': State, op: Op)
    requires Proper(op)
  {
    && s'.hops == (if op.Delete? then s.hops else HopsAfter(s.hops, op.nexthop))
    && match op
       case Add(prefix, len, h) => exists sw: nat, ret: int :: AddOutcome(s, s', sw, ret, prefix, len, h)
       case Change(prefix, len, h) => exists ret: int :: ChangeOutcome(s, s', ret, prefix, len, h)
       case Update(prefix, len, h) => UpdateOutcome(s, s', prefix, len, h)
       case Delete(prefix, len) => exists ret: int :: DelOutcome(s, s', ret, prefix, len)
  }

  /** One operation, which cannot fail in roomy arenas. */
  method Perform(p: Poptrie, op: Op)
    requires Kept(p) && Proper(op) && Room(KnownOf(p), op)
    modifies p, p.Foot(), p.dir, p.altdir, p.entries, Objs(p.shape)
    ensures p.Mem() && p.Fails() >= old(p.Fails())
    ensures (p.dir == old(p.dir) && p.altdir == old(p.altdir)) || (p.dir == old(p.altdir) && p.altdir == old(p.dir))
    ensures forall o :: o in Objs(p.shape) && o !in old(Objs(p.shape)) ==> fresh(o)
    ensures old(Roomy(p, 0)) ==> p.Fails() == old(p.Fails())
    ensures p.Fails() == old(p.Fails()) ==>
      && Kept(p) && Performs(old(Snap(p)), Snap(p), op)
      && (old(Valid(p)) && Gentle(old(KnownOf(p)), op) ==> Valid(p))
  {
    hide Poptrie.Mem, Poptrie.Fails, Poptrie.Foot, Objs, Kept, Valid, Spends, Count,
         AddOutcome, ChangeOutcome, UpdateOutcome, DelOutcome, KeyOf, Harmless, Hops, HopsAfter, Named;
    p.FootHeld();
    Allocated(p.shape);
    KeptParts(p);
    p.MemTrace();
    p.MemHeap();
    ghost var s := Snap(p);
    match op {
      case Add(prefix, len, nexthop) =>
        var ret;
        ghost var sw;
        ret, sw := RouteAdd(p, prefix, len, nexthop);
      case Change(prefix, len, nexthop) =>
        var ret := RouteChange(p, prefix, len, nexthop);
      case Update(prefix, len, nexthop) =>
        var ret := RouteUpdate(p, prefix, len, nexthop);
      case Delete(prefix, len) =>
        var ret := RouteDel(p, prefix, len);
    }
    p.MemTrace();
    if old(Roomy(p, 0)) { NeverRefused(s, p.trace); }
  }

  ghost function KnownIn(s: State): Known { Known(RoutesOf(s), s.hops) }

  /** On the routes an operation does what it does to a finite map. */
  lemma PerformsApply(s: State, s': State, op: Op)
    requires Proper(op) && Performs(s, s', op)
    ensures KnownIn(s') == Apply(KnownIn(s), op)
  {
    hide KeyOf, Named, PutStep, SetOutcome, HopStep, Publishes, Sound, AnsweredFrom, RangeFresh;
  }

  /** And it is a step of a run, a right one where it is known to be safe. */
  lemma PerformsStep(s: State, s': State, op: Op)
    requires Proper(op) && Performs(s, s', op)
    ensures Step(s, s') && (Sound(s) && Gentle(KnownIn(s), op) ==> RightStep(s, s'))
  {
    hide Step, RightStep, AddOutcome, ChangeOutcome, UpdateOutcome, DelOutcome, Harmless, RoutesOf, Sound;
    match op {
      case Add(prefix, len, h) =>
        var sw: nat, ret: int :| AddOutcome(s, s', sw, ret, prefix, len, h);
        AddIsStep(s, s', sw, ret, prefix, len, h);
      case Change(prefix, len, h) =>
        var ret: int :| ChangeOutcome(s, s', ret, prefix, len, h);
        ChangeIsStep(s, s', ret, prefix, len, h);
      case Update(prefix, len, h) => UpdateIsStep(s, s', prefix, len, h);
      case Delete(prefix, len) =>
        var ret: int :| DelOutcome(s, s', ret, prefix, len);
        DelIsStep(s, s', ret, prefix, len);
    }
  }

  /** The snapshots of a sequence of operations. */
  ghost predicate Performed(ss: seq<State>, ops: seq<Op>)
    requires AllProper(ops)
  {
    |ss| == |ops| + 1 && forall i :: 0 <= i < |ops| ==> Performs(ss[i], ss[i + 1], ops[i])
  }

  lemma ApplyNone(t: Known)
    ensures ApplyAll(t, []) == t
  {}

  lemma KeptMem(p: Poptrie)
    requires Kept(p)
    ensures p.Mem()
  {}

  lemma KeptAnswers(p: Poptrie)
    requires Kept(p)
    ensures Fib(p.H(), p.dir[..], p.es, p.own) && Blocks(p.H()) == p.own.Keys
    ensures Valid(p) ==> Answers(p.H(), p.dir[..], Hops(p), RouteMap(p))
  {
    hide Kept, Valid, Answers, Named, Tracking;
    KeptParts(p);
    SoundValid(p);
    if Valid(p) { SoundAnswers(Snap(p)); }
  }

  lemma TakeOps(t: Known, ops: seq<Op>, i: nat)
    requires AllProper(ops) && i < |ops|
    ensures ApplyAll(t, ops[..i + 1]) == Apply(ApplyAll(t, ops[..i]), ops[i])
  {
    assert ops[..i + 1][..i] == ops[..i];
  }

  /** Every run of operations, stopped only by a failed allocation, and by none in roomy arenas.  The
      routes are what the operations make of a finite map; the snapshots form a run, so that radix tree,
      caches and exact ownership are kept by right and wrong updates alike, no radix node is removed,
      and lookups beside the run are served as `Runs.RunMoments` says.  The fast form answers every
      address with its longest match if it did before and no change or deletion went against a route of
      length 25 or 31 below it. */
  method Execute(p: Poptrie, ops: seq<Op>) returns (done: nat, ghost ss: seq<State>)
    requires Kept(p) && AllProper(ops) && RoomAll(KnownOf(p), ops)
    modifies p, p.Foot(), p.dir, p.altdir, p.entries, Objs(p.shape)
    ensures p.Mem() && done <= |ops| && (done < |ops| ==> p.Fails() > old(p.Fails()))
    ensures old(Roomy(p, |ops|)) ==> p.Fails() == old(p.Fails())
    ensures p.Fails() == old(p.Fails()) ==>
      && Kept(p) && KnownOf(p) == ApplyAll(old(KnownOf(p)), ops)
      && Fib(p.H(), p.dir[..], p.es, p.own) && Blocks(p.H()) == p.own.Keys
      && Performed(ss, ops) && Run(ss) && ss[0] == old(Snap(p)) && ss[|ops|] == Snap(p)
      && Extends(old(p.rib), p.rib)
      && (old(Valid(p)) && GentleAll(old(KnownOf(p)), ops) ==>
          Valid(p) && RightRun(ss) && Answers(p.H(), p.dir[..], Hops(p), RouteMap(p)))
  {
    hide Poptrie.Mem, Poptrie.Fails, Poptrie.Foot, Objs, Kept, Valid, Answers, Apply, Room, Gentle, ApplyAll, Fib,
         Blocks, Proper, Step, RightStep, Run, RightRun, Extends, Count, Performs, Sound, Hops, RoutesOf;
    p.FootHeld();
    Allocated(p.shape);
    ghost var t, d, e, objs := KnownOf(p), p.dir, p.altdir, Objs(p.shape);
    KeptMem(p);
    var fails := p.Fails();
    done, ss := 0, [Snap(p)];
    assert ops[..0] == [];
    ApplyNone(t);
    RunStart(p);
    KnownSnap(p);
    while done < |ops|
      invariant done <= |ops| && p.Fails() == old(p.Fails()) && p.Mem() && Kept(p)
      invariant KnownOf(p) == KnownIn(Snap(p)) == ApplyAll(t, ops[..done])
      invariant Performed(ss, ops[..done]) && Run(ss) && ss[0] == old(Snap(p)) && ss[done] == Snap(p)
      invariant Count(p.rib) <= Count(old(p.rib)) + 33 * done
      invariant old(Valid(p)) && GentleAll(t, ops) ==> Valid(p) && RightRun(ss)
      invariant (p.dir == d && p.altdir == e) || (p.dir == e && p.altdir == d)
      invariant forall o :: o in Objs(p.shape) && o !in objs ==> fresh(o)
      modifies p, p.Foot(), d, e, p.entries, objs
    {
      TakeOps(t, ops, done);
      Allocated(p.shape);
      SoundValid(p);
      Perform(p, ops[done]);
      if p.Fails() != fails { return; }
      KnownSnap(p);
      PerformsApply(ss[done], Snap(p), ops[done]);
      PerformsStep(ss[done], Snap(p), ops[done]);
      StepCount(ss[done], Snap(p));
      RunOn(ss, Snap(p));
      ss := ss + [Snap(p)];
      done := done + 1;
    }
    assert ops[..done] == ops;
    KeptParts(p);
    KeptAnswers(p);
    RunExtends(ss, 0, done);
  }

  lemma KnownSnap(p: Poptrie)
    ensures KnownOf(p) == KnownIn(Snap(p))
  {}

  lemma RunStart(p: Poptrie)
    requires Kept(p)
    ensures Run([Snap(p)]) && (Valid(p) ==> RightRun([Snap(p)]))
  {
    hide Kept, Valid, Consistent, Sound;
    KeptParts(p);
    SoundValid(p);
  }

  lemma RunOn(ss: seq<State>, s: State)
    requires |ss| > 0 && Run(ss) && Step(ss[|ss| - 1], s)
    ensures Run(ss + [s]) && (RightRun(ss) && RightStep(ss[|ss| - 1], s) ==> RightRun(ss + [s]))
  {
    hide Step, RightStep, Consistent, Sound;
    var ss' := ss + [s];
    forall i | 0 < i < |ss'| ensures Step(ss'[i - 1], ss'[i]) {
      if i < |ss| { assert ss'[i - 1] == ss[i - 1] && ss'[i] == ss[i]; }
    }
    if RightRun(ss) && RightStep(ss[|ss| - 1], s) {
      forall i | 0 < i < |ss'| ensures RightStep(ss'[i - 1], ss'[i]) {
        if i < |ss| { assert ss'[i - 1] == ss[i - 1] && ss'[i] == ss[i]; }
      }
    }
  }
}
