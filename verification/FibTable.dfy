/** All direct-pointing entries together: who owns which block, one entry exchanged, and a whole
    range of entries drafted in the alternative array and then swapped in. */
module FibTable {
  import opened Bits
  import opened BuddyModel
  import opened Rib
  import opened Trie
  import opened Store
  import opened Sharing
  import opened Trace
  import opened PoptrieState
  import opened Build
  import opened Clean
  import opened Entries

  /** 1 << POPTRIE_S */
  const DIRS: nat := 0x4_0000

  /** S are exactly the blocks that belong to entry i. */
  ghost predicate Owns(own: map<Blk, nat>, i: nat, S: set<Blk>) {
    forall b :: b in S <==> b in own && own[b] == i
  }

  ghost predicate FibAt(h: Heap, w: u32, e: TSlot, own: map<Blk, nat>, i: nat) {
    EntryAt(h, w, e) && Owns(own, i, EntryB(w, e))
  }

  /** Every entry is stored, and every owned block belongs to one entry. */
  ghost predicate Fib(h: Heap, ds: seq<u32>, es: seq<TSlot>, own: map<Blk, nat>) {
    && |ds| == |es| == DIRS && (forall b :: b in own ==> own[b] < DIRS)
    && forall i :: 0 <= i < DIRS ==> FibAt(h, ds[i], es[i], own, i)
  }

  lemma FibEntry(h: Heap, ds: seq<u32>, es: seq<TSlot>, own: map<Blk, nat>, i: nat)
    requires Fib(h, ds, es, own) && i < DIRS
    ensures |ds| == |es| == DIRS && EntryAt(h, ds[i], es[i]) && Owns(own, i, EntryB(ds[i], es[i]))
    ensures EntryB(ds[i], es[i]) <= Blocks(h)
  {
    assert FibAt(h, ds[i], es[i], own, i);
    EntryBlocks(h, ds[i], es[i]);
  }

  lemma FibOwned(h: Heap, ds: seq<u32>, es: seq<TSlot>, own: map<Blk, nat>)
    requires Fib(h, ds, es, own)
    ensures own.Keys <= Blocks(h)
  {
    hide EntryAt, EntryB;
    forall b | b in own ensures b in Blocks(h) {
      FibEntry(h, ds, es, own, own[b]);
    }
  }

  // ----- exchanging one entry

  function Reowned(own: map<Blk, nat>, i: nat, S: set<Blk>, S': set<Blk>): map<Blk, nat> {
    map b | b in (own.Keys - S) + S' :: if b in S' then i else own[b]
  }

  /** One switched entry leaves the table well formed, and exact if it was. */
  lemma FibSwitch(h0: Heap, hb: Heap, ha: Heap, h: Heap, ds: seq<u32>, es: seq<TSlot>, own: map<Blk, nat>, i: nat,
          w': u32, e: TSlot)
    requires Fib(h0, ds, es, own) && i < DIRS && Switched(h0, hb, ha, h, ds[i], es[i], w', e)
    ensures var own' := Reowned(own, i, EntryB(ds[i], es[i]), EntryB(w', e));
            && Fib(h, ds[i := w'], es[i := e], own')
            && (Blocks(h0) == own.Keys ==> Blocks(h) == own'.Keys)
  {
    hide EntryAt, EntryB, Blocks, Grows, Drops, AtMostOneStore;
    FibEntry(h0, ds, es, own, i);
    var S, S' := EntryB(ds[i], es[i]), EntryB(w', e);
    SwitchedEntry(h0, hb, ha, h, ds[i], es[i], w', e);
    FibOwned(h0, ds, es, own);
    SwitchedKeeps(h0, hb, ha, h, ds[i], es[i], w', e);
    var ds', es', own' := ds[i := w'], es[i := e], Reowned(own, i, S, S');
    hide Switched;
    forall j | 0 <= j < DIRS ensures FibAt(h, ds'[j], es'[j], own', j) {
      if j != i {
        FibEntry(h0, ds, es, own, j);
        EntryKept(h0, h, Blocks(h0) - S, ds[j], es[j]);
        assert EntryB(ds[j], es[j]) <= Blocks(h0) - S;
      }
    }
  }

  /** What the switch frees is what its entry owned and no longer owns. */
  lemma ReownedDrops(h0: Heap, hb: Heap, ha: Heap, h: Heap, ds: seq<u32>, es: seq<TSlot>, own: map<Blk, nat>, i: nat,
          w': u32, e: TSlot)
    requires Fib(h0, ds, es, own) && i < DIRS && Switched(h0, hb, ha, h, ds[i], es[i], w', e)
    ensures Drops(ha, h, own.Keys - Reowned(own, i, EntryB(ds[i], es[i]), EntryB(w', e)).Keys)
  {
    hide EntryAt, EntryB, Blocks, Grows, Drops, AtMostOneStore, Keeps;
    FibEntry(h0, ds, es, own, i);
    var S, S' := EntryB(ds[i], es[i]), EntryB(w', e);
    assert own.Keys - Reowned(own, i, S, S').Keys == S - S';
  }

  lemma SwitchedKeeps(h0: Heap, hb: Heap, ha: Heap, h: Heap, w: u32, o: TSlot, w': u32, e: TSlot)
    requires Switched(h0, hb, ha, h, w, o, w', e)
    ensures Keeps(h0, h, Blocks(h0) - EntryB(w, o))
  {}

  // ----- publication

  /** At moment m the direct entries are ds, and every one of them is stored, in allocated blocks, as
      es says. */
  ghost predicate Holding(m: Moment, ds: seq<u32>, es: seq<TSlot>) {
    m.ds == ds && |ds| == |es| == DIRS && forall i :: 0 <= i < DIRS ==> EntryAt(m.h, ds[i], es[i])
  }

  /** Between t0 and t1 every moment before sw holds the old table, and every moment from sw on the
      new one. */
  ghost predicate Switchover(t0: seq<Moment>, t1: seq<Moment>, sw: nat, ds: seq<u32>, es: seq<TSlot>, ds': seq<u32>,
                             es': seq<TSlot>) {
    && 0 < |t0| <= sw <= |t1| && t0 <= t1
    && (forall j :: |t0| <= j < sw ==> Holding(t1[j], ds, es))
    && (forall j :: sw <= j < |t1| ==> Holding(t1[j], ds', es'))
  }

  lemma OldUntil(t0: seq<Moment>, t1: seq<Moment>, n: nat, ds: seq<u32>, es: seq<TSlot>, own: map<Blk, nat>, j: nat)
    requires |t0| > 0 && Last(t0).ds == ds && Fib(Last(t0).h, ds, es, own)
    requires Quiet(t0, t1, Blocks(Last(t0).h), n) && |t0| <= j < |t1|
    ensures Holding(t1[j], ds, es)
  {
    hide EntryAt, Blocks, Fib;
    assert Untouched(Last(t0), t1[j], Blocks(Last(t0).h));
    FibSize(Last(t0).h, ds, es, own);
    forall i | 0 <= i < DIRS ensures EntryAt(t1[j].h, ds[i], es[i]) {
      UntilPublished(Last(t0).h, ds, es, own, t1[j].h, i);
    }
  }

  lemma FibSize(h: Heap, ds: seq<u32>, es: seq<TSlot>, own: map<Blk, nat>)
    requires Fib(h, ds, es, own)
    ensures |ds| == |es| == DIRS
  {}

  /** While nothing but unowned memory changes the table holds. */
  lemma NoSwitch(t0: seq<Moment>, t1: seq<Moment>, n: nat, ds: seq<u32>, es: seq<TSlot>, own: map<Blk, nat>)
    requires |t0| > 0 && Last(t0).ds == ds && Fib(Last(t0).h, ds, es, own)
    requires Quiet(t0, t1, Blocks(Last(t0).h), n)
    ensures Switchover(t0, t1, |t1|, ds, es, ds, es)
  {
    hide Holding, Fib, Blocks, Untouched;
    QuietEnd(t0, t1, Blocks(Last(t0).h), n);
    forall j | |t0| <= j < |t1| ensures Holding(t1[j], ds, es) { OldUntil(t0, t1, n, ds, es, own, j); }
  }

  lemma NewFrom(t: seq<Moment>, t1: seq<Moment>, F: set<Blk>, ds: seq<u32>, es: seq<TSlot>, j: nat)
    requires |t| > 0 && Quiet(t, t1, Blocks(Last(t).h) - F, 0) && |t| - 1 <= j < |t1| && Holding(Last(t), ds, es)
    requires forall i :: 0 <= i < DIRS ==> EntryB(ds[i], es[i]) !! F
    ensures Holding(t1[j], ds, es)
  {
    hide EntryAt, Blocks, EntryB;
    var h := Last(t).h;
    if j >= |t| {
      assert Untouched(Last(t), t1[j], Blocks(h) - F);
      forall i | 0 <= i < DIRS ensures EntryAt(t1[j].h, ds[i], es[i]) {
        EntryBlocks(h, ds[i], es[i]);
        EntryKept(h, t1[j].h, Blocks(h) - F, ds[i], es[i]);
      }
    } else {
      assert t1[j] == t1[..|t|][j];
    }
  }

  /** From a recorded switch to the table at every moment. */
  lemma SwitchoverIntro(t0: seq<Moment>, t1: seq<Moment>, sw: nat, hb: Heap, ha: Heap, F: set<Blk>, n: nat,
                        ds: seq<u32>, es: seq<TSlot>, own: map<Blk, nat>, ds': seq<u32>, es': seq<TSlot>)
    requires |t0| > 0 && Last(t0).ds == ds && Fib(Last(t0).h, ds, es, own)
    requires Handed(t0, t1, sw, hb, ha, ds', F, n) && |ds'| == |es'| == DIRS
    requires forall i :: 0 <= i < DIRS ==> EntryAt(ha, ds'[i], es'[i]) && EntryB(ds'[i], es'[i]) !! F
    ensures Switchover(t0, t1, sw, ds, es, ds', es')
  {
    hide EntryAt, Blocks, EntryB, Fib, Quiet;
    HandedEnd(t0, t1, sw, hb, ha, ds', F, n);
    forall j | |t0| <= j < sw ensures Holding(t1[j], ds, es) {
      OldUntil(t0, t1[..sw], n, ds, es, own, j);
    }
    forall j | sw <= j < |t1| ensures Holding(t1[j], ds', es') {
      assert Last(t1[..sw + 1]) == t1[sw];
      NewFrom(t1[..sw + 1], t1, F, ds', es', j);
    }
  }

  /** One entry is switched: the table changes hands at that moment. */
  lemma EntrySwitchover(t0: seq<Moment>, t1: seq<Moment>, sw: nat, hb: Heap, ha: Heap, h: Heap, n: nat, ds: seq<u32>,
                        es: seq<TSlot>, own: map<Blk, nat>, i: nat, w': u32, e: TSlot)
    requires |t0| > 0 && Last(t0).ds == ds && Fib(Last(t0).h, ds, es, own) && i < DIRS && |ds| == |es| == DIRS
    requires Switched(Last(t0).h, hb, ha, h, ds[i], es[i], w', e)
    requires Handed(t0, t1, sw, hb, ha, ds[i := w'], EntryB(ds[i], es[i]) - EntryB(w', e), n)
    ensures Switchover(t0, t1, sw, ds, es, ds[i := w'], es[i := e])
  {
    hide EntryAt, EntryB, Blocks, Grows, Drops, AtMostOneStore, Keeps, Fib, Handed;
    var h0, S, S' := Last(t0).h, EntryB(ds[i], es[i]), EntryB(w', e);
    FibEntry(h0, ds, es, own, i);
    var ds', es' := ds[i := w'], es[i := e];
    forall j | 0 <= j < DIRS ensures EntryAt(ha, ds'[j], es'[j]) && EntryB(ds'[j], es'[j]) !! S - S' {
      if j != i {
        FibEntry(h0, ds, es, own, j);
        EntryKept(h0, ha, Blocks(h0) - S, ds[j], es[j]);
      }
    }
    SwitchoverIntro(t0, t1, sw, hb, ha, S - S', n, ds, es, own, ds', es');
  }

  /** An old entry stands until publication. */
  lemma UntilPublished(h0: Heap, ds: seq<u32>, es: seq<TSlot>, own: map<Blk, nat>, hb: Heap, i: nat)
    requires Fib(h0, ds, es, own) && Grows(h0, hb) && i < DIRS
    ensures |ds| == |es| == DIRS && EntryAt(hb, ds[i], es[i])
  {
    FibEntry(h0, ds, es, own, i);
    EntryGrows(h0, hb, ds[i], es[i]);
  }

  lemma FibGrows(h: Heap, h': Heap, ds: seq<u32>, es: seq<TSlot>, own: map<Blk, nat>)
    requires Fib(h, ds, es, own) && Grows(h, h')
    ensures Fib(h', ds, es, own)
  {
    hide EntryAt, EntryB, Grows;
    forall i | 0 <= i < DIRS ensures FibAt(h', ds[i], es[i], own, i) {
      FibEntry(h, ds, es, own, i);
      EntryGrows(h, h', ds[i], es[i]);
    }
  }

  // ----- drafting a range in the alternative array

  /** The table before the update. */
  datatype Before = Before(h: Heap, ds: seq<u32>, es: seq<TSlot>, own: map<Blk, nat>)

  /** Entry i of the draft: the old one, or one built beside everything old. */
  ghost predicate DraftAt(o: Before, h: Heap, w: u32, x: TSlot, w': u32, e: TSlot, nown: map<Blk, nat>, i: nat) {
    && EntryAt(h, w', e) && EntryB(w', e) * Blocks(o.h) <= EntryB(w, x)
    && Owns(nown, i, EntryB(w', e) - Blocks(o.h)) && SlotShares(e, x, Blocks(o.h))
    && ((w' == w && e == x) || (e.TKid? ==> NB(w') !in Blocks(o.h)))
  }

  ghost predicate Drafted(o: Before, h: Heap, ds': seq<u32>, ns: seq<TSlot>, nown: map<Blk, nat>) {
    && Fib(o.h, o.ds, o.es, o.own) && Grows(o.h, h) && |ds'| == |ns| == DIRS
    && (forall b :: b in nown ==> nown[b] < DIRS && b !in Blocks(o.h))
    && forall i :: 0 <= i < DIRS ==> DraftAt(o, h, o.ds[i], o.es[i], ds'[i], ns[i], nown, i)
  }

  /** No block has been lost by a failed allocation. */
  ghost predicate DraftExact(o: Before, h: Heap, nown: map<Blk, nat>) {
    Blocks(h) == Blocks(o.h) + nown.Keys
  }

  lemma DraftStart(o: Before)
    requires Fib(o.h, o.ds, o.es, o.own)
    ensures Drafted(o, o.h, o.ds, o.es, map[]) && DraftExact(o, o.h, map[])
  {
    hide EntryAt, EntryB, Blocks, SlotShares;
    GrowsSelf(o.h);
    forall i | 0 <= i < DIRS ensures DraftAt(o, o.h, o.ds[i], o.es[i], o.ds[i], o.es[i], map[], i) {
      FibEntry(o.h, o.ds, o.es, o.own, i);
      EntrySelf(o.h, o.ds[i], o.es[i]);
    }
  }

  lemma EntrySelf(h: Heap, w: u32, e: TSlot)
    requires EntryAt(h, w, e)
    ensures SlotShares(e, e, Blocks(h))
  {
    if e.TKid? { RepSize(h, e.t); }
    SharesSelf(e, Blocks(h));
  }

  lemma DraftEntry(o: Before, h: Heap, ds': seq<u32>, ns: seq<TSlot>, nown: map<Blk, nat>, i: nat)
    requires Drafted(o, h, ds', ns, nown) && i < DIRS
    ensures |ds'| == |ns| == |o.ds| == |o.es| == DIRS && DraftAt(o, h, o.ds[i], o.es[i], ds'[i], ns[i], nown, i)
  {}

  /** Failed work may leave blocks behind, but no harm to the draft. */
  lemma DraftGrows(o: Before, h: Heap, h': Heap, ds': seq<u32>, ns: seq<TSlot>, nown: map<Blk, nat>)
    requires Drafted(o, h, ds', ns, nown) && Grows(h, h')
    ensures Drafted(o, h', ds', ns, nown)
  {
    hide EntryAt, EntryB, Blocks, SlotShares, Grows;
    GrowsTransitive(o.h, h, h');
    forall i | 0 <= i < DIRS ensures DraftAt(o, h', o.ds[i], o.es[i], ds'[i], ns[i], nown, i) {
      DraftEntry(o, h, ds', ns, nown, i);
      EntryGrows(h, h', ds'[i], ns[i]);
    }
  }

  lemma DraftOwned(o: Before, h: Heap, ds': seq<u32>, ns: seq<TSlot>, nown: map<Blk, nat>)
    requires Drafted(o, h, ds', ns, nown)
    ensures nown.Keys <= Blocks(h) && Blocks(o.h) <= Blocks(h)
  {
    hide EntryAt, EntryB, SlotShares, Fib;
    KeepsHas(o.h, h, Blocks(o.h));
    forall b | b in nown ensures b in Blocks(h) {
      var i := nown[b];
      DraftEntry(o, h, ds', ns, nown, i);
      EntryBlocks(h, ds'[i], ns[i]);
    }
  }

  function Newly(nown: map<Blk, nat>, i: nat, S: set<Blk>): map<Blk, nat> {
    nown + (map b | b in S :: i)
  }

  /** A new version of an entry that still stood as before joins the draft. */
  lemma DraftRenew(o: Before, h: Heap, h': Heap, ds': seq<u32>, ns: seq<TSlot>, nown: map<Blk, nat>, i: nat, w': u32,
          e: TSlot)
    requires Drafted(o, h, ds', ns, nown) && i < DIRS && ds'[i] == o.ds[i] && ns[i] == o.es[i]
    requires Renewed(h, h', ds'[i], ns[i], w', e)
    ensures var nown' := Newly(nown, i, EntryB(w', e) - Blocks(o.h));
            && Drafted(o, h', ds'[i := w'], ns[i := e], nown')
            && (DraftExact(o, h, nown) ==> DraftExact(o, h', nown'))
  {
    hide EntryAt, EntryB, Blocks, SlotShares, Grows, Fib;
    GrowsTransitive(o.h, h, h');
    DraftOwned(o, h, ds', ns, nown);
    DraftEntry(o, h, ds', ns, nown, i);
    OldOwned(o, i);
    SharesLess(e, o.es[i], Blocks(h), Blocks(o.h));
    var N := EntryB(w', e) - Blocks(o.h);
    var ds'', ns', nown' := ds'[i := w'], ns[i := e], Newly(nown, i, N);
    assert N !! Blocks(h);
    forall j | 0 <= j < DIRS ensures DraftAt(o, h', o.ds[j], o.es[j], ds''[j], ns'[j], nown', j) {
      DraftEntry(o, h, ds', ns, nown, j);
      if j != i { EntryGrows(h, h', ds'[j], ns[j]); }
    }
  }

  lemma OldOwned(o: Before, i: nat)
    requires Fib(o.h, o.ds, o.es, o.own) && i < DIRS
    ensures |o.ds| == |o.es| == DIRS && EntryB(o.ds[i], o.es[i]) <= Blocks(o.h) && EntryAt(o.h, o.ds[i], o.es[i])
  {
    FibEntry(o.h, o.ds, o.es, o.own, i);
  }

  /** A next hop filled in for an entry. */
  lemma DraftLeaf(o: Before, h: Heap, ds': seq<u32>, ns: seq<TSlot>, nown: map<Blk, nat>, i: nat, v: u16)
    requires Drafted(o, h, ds', ns, nown) && i < DIRS && ds'[i] == o.ds[i] && ns[i] == o.es[i]
    ensures Drafted(o, h, ds'[i := LEAF_TAG + v], ns[i := TLeaf(v)], nown)
  {
    hide Blocks, Grows, Fib, Rep, Lin;
    DraftEntry(o, h, ds', ns, nown, i);
    OldOwned(o, i);
    var ds'', ns' := ds'[i := LEAF_TAG + v], ns[i := TLeaf(v)];
    forall j | 0 <= j < DIRS ensures DraftAt(o, h, o.ds[j], o.es[j], ds''[j], ns'[j], nown, j) {
      DraftEntry(o, h, ds', ns, nown, j);
    }
  }

  // ----- cleaning after the swap

  /** What entries lo .. hi of the old table owned and the draft does not. */
  ghost function Retired(own: map<Blk, nat>, ds': seq<u32>, ns: seq<TSlot>, lo: nat, hi: nat): set<Blk>
    requires hi <= |ds'| == |ns|
  {
    set b | b in own && lo <= own[b] < hi && b !in EntryB(ds'[own[b]], ns[own[b]])
  }

  lemma RetiredStep(o: Before, h: Heap, ds': seq<u32>, ns: seq<TSlot>, nown: map<Blk, nat>, lo: nat, i: nat)
    requires Drafted(o, h, ds', ns, nown) && lo <= i < DIRS
    ensures |ds'| == |ns| == |o.ds| == |o.es| == DIRS
    ensures Retired(o.own, ds', ns, lo, i + 1) ==
        Retired(o.own, ds', ns, lo, i) + (EntryB(o.ds[i], o.es[i]) - EntryB(ds'[i], ns[i]))
  {
    hide EntryAt, EntryB, Blocks, SlotShares, Grows;
    FibEntry(o.h, o.ds, o.es, o.own, i);
  }

  /** While the range is cleaned up to i, both versions of entry i are intact. */
  lemma BothIntact(o: Before, hA: Heap, h: Heap, ds': seq<u32>, ns: seq<TSlot>, nown: map<Blk, nat>, lo: nat, i: nat)
    requires Drafted(o, hA, ds', ns, nown) && lo <= i < DIRS && Drops(hA, h, Retired(o.own, ds', ns, lo, i))
    ensures EntryAt(o.h, o.ds[i], o.es[i]) && EntryAt(h, o.ds[i], o.es[i]) && EntryAt(h, ds'[i], ns[i])
    ensures SlotShares(ns[i], o.es[i], Blocks(o.h))
    ensures (ds'[i] == o.ds[i] && ns[i] == o.es[i]) || (ns[i].TKid? ==> NB(ds'[i]) !in Blocks(o.h))
  {
    hide EntryAt, EntryB, Blocks, SlotShares, Grows, Drops;
    var F := Retired(o.own, ds', ns, lo, i);
    FibEntry(o.h, o.ds, o.es, o.own, i);
    FibOwned(o.h, o.ds, o.es, o.own);
    DraftEntry(o, hA, ds', ns, nown, i);
    DraftOwned(o, hA, ds', ns, nown);
    EntryGrows(o.h, hA, o.ds[i], o.es[i]);
    EntryBlocks(hA, ds'[i], ns[i]);
    DropsBlocks(hA, h, F);
    EntryKept(hA, h, Blocks(hA) - F, o.ds[i], o.es[i]);
    EntryKept(hA, h, Blocks(hA) - F, ds'[i], ns[i]);
  }

  /** The owners after the swap. */
  ghost function Merged(own: map<Blk, nat>, nown: map<Blk, nat>, F: set<Blk>): map<Blk, nat> {
    map b | b in (own.Keys - F) + nown.Keys :: if b in nown then nown[b] else own[b]
  }

  /** After the range has been cleaned the draft is the table. */
  lemma DraftDone(o: Before, hA: Heap, h: Heap, ds': seq<u32>, ns: seq<TSlot>, nown: map<Blk, nat>, lo: nat, hi: nat)
    requires Drafted(o, hA, ds', ns, nown) && lo <= hi <= DIRS && Drops(hA, h, Retired(o.own, ds', ns, lo, hi))
    requires forall i :: 0 <= i < DIRS && !(lo <= i < hi) ==> ds'[i] == o.ds[i] && ns[i] == o.es[i]
    ensures var own' := Merged(o.own, nown, Retired(o.own, ds', ns, lo, hi));
            && Fib(h, ds', ns, own')
            && (DraftExact(o, hA, nown) && Blocks(o.h) == o.own.Keys ==> Blocks(h) == own'.Keys)
  {
    hide EntryAt, EntryB, Blocks, SlotShares, Grows, Drops, Fib, Retired;
    var F := Retired(o.own, ds', ns, lo, hi);
    var own' := Merged(o.own, nown, F);
    DropsBlocks(hA, h, F);
    RetiredOld(o, ds', ns, lo, hi);
    FibOwned(o.h, o.ds, o.es, o.own);
    FibBounds(o);
    forall i | 0 <= i < DIRS ensures FibAt(h, ds'[i], ns[i], own', i) {
      DraftOwner(o, hA, ds', ns, nown, lo, hi, i);
      DraftEntry(o, hA, ds', ns, nown, i);
      EntryBlocks(hA, ds'[i], ns[i]);
      EntryKept(hA, h, Blocks(hA) - F, ds'[i], ns[i]);
    }
    FibIntro(h, ds', ns, own');
  }

  /** The exchange of the arrays makes every entry the drafted one at once. */
  lemma DraftSwitchover(o: Before, t0: seq<Moment>, t1: seq<Moment>, sw: nat, hb: Heap, ds': seq<u32>, ns: seq<TSlot>,
                        nown: map<Blk, nat>, lo: nat, hi: nat, n: nat)
    requires Drafted(o, hb, ds', ns, nown) && lo <= hi <= DIRS
    requires |t0| > 0 && Last(t0).h == o.h && Last(t0).ds == o.ds && |ds'| == |ns| == DIRS
    requires Handed(t0, t1, sw, hb, hb, ds', Retired(o.own, ds', ns, lo, hi), n)
    requires forall i :: 0 <= i < DIRS && !(lo <= i < hi) ==> ds'[i] == o.ds[i] && ns[i] == o.es[i]
    ensures Switchover(t0, t1, sw, o.ds, o.es, ds', ns)
  {
    hide EntryAt, EntryB, Blocks, SlotShares, Grows, Fib, Retired, Handed;
    var F := Retired(o.own, ds', ns, lo, hi);
    forall i | 0 <= i < DIRS ensures EntryAt(hb, ds'[i], ns[i]) && EntryB(ds'[i], ns[i]) !! F {
      DraftEntry(o, hb, ds', ns, nown, i);
      DraftOwner(o, hb, ds', ns, nown, lo, hi, i);
    }
    SwitchoverIntro(t0, t1, sw, hb, hb, F, n, o.ds, o.es, o.own, ds', ns);
  }

  /** What the clean pass frees is what the old table owned and the draft does not. */
  lemma MergedDrops(o: Before, hA: Heap, ds': seq<u32>, ns: seq<TSlot>, nown: map<Blk, nat>, lo: nat, hi: nat)
    requires Drafted(o, hA, ds', ns, nown) && hi <= DIRS
    ensures |ds'| == |ns| == DIRS
    ensures var F := Retired(o.own, ds', ns, lo, hi); o.own.Keys - Merged(o.own, nown, F).Keys == F
  {
    hide EntryAt, EntryB, Blocks, SlotShares, Grows, Fib, DraftAt;
    FibOwned(o.h, o.ds, o.es, o.own);
  }

  lemma FibIntro(h: Heap, ds: seq<u32>, es: seq<TSlot>, own: map<Blk, nat>)
    requires |ds| == |es| == DIRS && (forall b :: b in own ==> own[b] < DIRS)
    requires forall i :: 0 <= i < DIRS ==> FibAt(h, ds[i], es[i], own, i)
    ensures Fib(h, ds, es, own)
  {}

  lemma FibBounds(o: Before)
    requires Fib(o.h, o.ds, o.es, o.own)
    ensures forall b :: b in o.own ==> o.own[b] < DIRS
  {}

  lemma RetiredOld(o: Before, ds': seq<u32>, ns: seq<TSlot>, lo: nat, hi: nat)
    requires hi <= |ds'| == |ns|
    ensures Retired(o.own, ds', ns, lo, hi) <= o.own.Keys
  {}

  lemma DraftOwner(o: Before, hA: Heap, ds': seq<u32>, ns: seq<TSlot>, nown: map<Blk, nat>, lo: nat, hi: nat, i: nat)
    requires Drafted(o, hA, ds', ns, nown) && lo <= hi <= DIRS && i < DIRS
    requires !(lo <= i < hi) ==> ds'[i] == o.ds[i] && ns[i] == o.es[i]
    ensures |ds'| == |ns| == DIRS
    ensures Owns(Merged(o.own, nown, Retired(o.own, ds', ns, lo, hi)), i, EntryB(ds'[i], ns[i]))
    ensures EntryB(ds'[i], ns[i]) !! Retired(o.own, ds', ns, lo, hi)
  {
    hide EntryAt, EntryB, Blocks, SlotShares, Grows;
    FibEntry(o.h, o.ds, o.es, o.own, i);
    FibOwned(o.h, o.ds, o.es, o.own);
    DraftEntry(o, hA, ds', ns, nown, i);
  }
}
