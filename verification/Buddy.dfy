/** The buddy allocator of buddy.c. */
module BuddySystem {
  import opened Bits
  import opened Arith
  import opened BuddyModel
  import opened FreeList
  import opened BuddyLists

  /** The pointer-to-link variable `u32 *n` of the list-walking loops. */
  datatype Cursor = Head | Link(at: nat)

  class Buddy {
    const sz: nat
    const level: nat
    const heads: array<u32>
    const links: array<u32>   // the first word of every block
    const b: array<u8>        // bit x is set iff unit x ends an allocated block

    ghost var own: seq<Block>
    ghost var lists: seq<seq<nat>>
    ghost var live: map<nat, nat>   // allocated blocks: address to level
    var failed: nat                 // how many allocations have failed; only runs read it

    ghost function Repr(): set<object> { {this, heads, links, b} }

    ghost predicate Shape()
      reads Repr()
    {
      && 1 <= level <= sz <= 28
      && heads != links
      && heads.Length == level && links.Length == Pow2(sz)
      && Tiling(own, sz, level)
      && AllLists(lists, own, level)
      && AllThreaded(heads[..], links[..], lists)
      && Tails(b[..], own)
      && live == LiveOf(own)
    }

    /** The allocator's invariant between operations. */
    ghost predicate Valid()
      reads Repr()
    {
      Shape() && NoTwins(own, level)
    }

    /** buddy_init: all of the arena on the top list, in address order.  With fewer levels of units than
        lists the arena is one block on the list of its own size, whose end is not marked. */
    constructor (sz: nat, level: nat)
      requires 1 <= level && sz <= 28
      ensures fresh(Repr()) && this.sz == sz && this.level == level && links.Length == Pow2(sz)
      ensures live == map[] && failed == 0
      ensures level <= sz ==> Valid()
      ensures sz < level ==>
        && heads.Length == level && heads[sz] == 0 && links[0] == 0
        && forall lists :: !AllThreaded(heads[..], links[..], lists)
    {
      hide Tiling, AllLists, AllThreaded, Tails, NoTwins, TopLinked, LiveOf, Pow2, Whole, TopList;
      this.sz, this.level := sz, level;
      UnitBound(sz);
      heads := new u32[level](_ => EOL);
      links := new u32[Pow2(sz)];
      b := new u8[(Pow2(sz) + 7) / 8](_ => 0);
      own := if level <= sz then Whole(sz, level) else [];
      lists := if level <= sz then TopList(sz, level) else [];
      live := map[];
      failed := 0;
      new;
      if sz < level {
        heads[sz] := 0;
        links[0] := 0;
        Unending(heads[..], links[..], sz);
      } else {
        heads[level - 1] := 0;
        LinkTopBlocks(Pow2(sz - level + 1));
        WholeShape(heads[..], links[..], b[..], sz, level);
      }
    }

    /** A list whose head links to itself is no list of blocks. */
    static lemma Unending(hs: seq<nat>, ls: seq<nat>, k: nat)
      requires k < |hs| && hs[k] == 0 && |ls| > 0 && ls[0] == 0
      ensures forall lists :: !AllThreaded(hs, ls, lists)
    {
      forall lists | AllThreaded(hs, ls, lists) ensures false {
        assert Threaded(hs[k], ls, lists[k]);
        AllZero(ls, lists[k], |lists[k]|);
      }
    }

    static lemma {:induction false} AllZero(ls: seq<nat>, L: seq<nat>, i: nat)
      requires Threaded(0, ls, L) && |ls| > 0 && ls[0] == 0 && i <= |L|
      ensures Nth(L, i) == 0
    {
      if i > 0 { AllZero(ls, L, i - 1); }
    }

    /** The untouched arena: one list, and no tail. */
    static lemma WholeShape(hs: seq<nat>, ls: seq<nat>, b: seq<u8>, sz: nat, level: nat)
      requires 1 <= level <= sz && |hs| == level && |ls| == Pow2(sz) && |b| == (Pow2(sz) + 7) / 8
      requires forall i :: 0 <= i < |b| ==> b[i] == 0
      requires forall k :: 0 <= k < level ==> hs[k] == if k == level - 1 then 0 else EOL
      requires TopLinked(ls, Pow2(sz - level + 1), Pow2(sz - level + 1), level)
      ensures Tiling(Whole(sz, level), sz, level) && NoTwins(Whole(sz, level), level)
      ensures AllLists(TopList(sz, level), Whole(sz, level), level) && AllThreaded(hs, ls, TopList(sz, level))
      ensures Tails(b, Whole(sz, level)) && LiveOf(Whole(sz, level)) == map[]
    {
      hide Tiling, AllLists, AllThreaded, NoTwins, TopLinked, TopList, Pow2, TailBit;
      WholeTiling(sz, level);
      WholeLists(sz, level);
      WholeThreads(hs, ls, sz, level);
      NoTails(b, Whole(sz, level));
    }

    /** The loop of buddy_init that links the top-level blocks in address order. */
    method LinkTopBlocks(n: nat)
      requires 1 <= level <= sz && n == Pow2(sz - level + 1) && links.Length == Pow2(sz) <= 0x4000_0000
      modifies links
      ensures TopLinked(links[..], n, n, level)
    {
      hide Pow2;
      PowersAdd(sz - level + 1, level - 1);
      var i := 0;
      while i < n
        invariant 0 <= i <= n
        invariant TopLinked(links[..], i, n, level)
      {
        MultipleFits(i, n, level);
        var off := i * Pow2(level - 1);
        var next := EOL;
        if i < n - 1 {
          MultipleFits(i + 1, n, level);
          next := (i + 1) * Pow2(level - 1);
        }
        LinkOne(links[..], i, n, level, next);
        ghost var ls: seq<nat> := links[..];
        links[off] := next;
        assert links[..] == ls[off := next];
        i := i + 1;
      }
    }

    static lemma LinkOne(ls: seq<nat>, i: nat, n: nat, level: nat, next: nat)
      requires level >= 1 && i < n && TopLinked(ls, i, n, level) && Multiple(i, level) < |ls|
      requires next == if i == n - 1 then EOL else Multiple(i + 1, level)
      ensures TopLinked(ls[Multiple(i, level) := next], i + 1, n, level)
    {
      hide Multiple;
      var ls' := ls[Multiple(i, level) := next];
      forall j | 0 <= j < i + 1 ensures TopLink(ls', j, n, level) {
        if j < i {
          assert TopLink(ls, j, n, level);
          MultipleGrows(j, i, level);
        }
      }
    }

    static lemma MultipleGrows(i: nat, j: nat, level: nat)
      requires level >= 1 && i < j
      ensures Multiple(i, level) < Multiple(j, level)
    {
      MultipleFits(i, j, level);
    }

    /** i * 2^(level - 1): the address of the i-th top-level block. */
    static function Multiple(i: nat, level: nat): nat
      requires level >= 1
    {
      i * Pow2(level - 1)
    }

    static function Whole(sz: nat, level: nat): (own: seq<Block>)
      requires 1 <= level <= sz
    {
      seq(Pow2(sz), x requires 0 <= x => Block(x / Pow2(level - 1) * Pow2(level - 1), level - 1, false))
    }

    static function TopBlocks(sz: nat, level: nat): (L: seq<nat>)
      requires 1 <= level <= sz
      ensures |L| == Pow2(sz - level + 1)
      ensures forall i :: 0 <= i < |L| ==> L[i] == Multiple(i, level)
    {
      seq<nat>(Pow2(sz - level + 1), i requires 0 <= i => Multiple(i, level))
    }

    static function TopList(sz: nat, level: nat): (lists: seq<seq<nat>>)
      requires 1 <= level <= sz
      ensures |lists| == level && lists[level - 1] == TopBlocks(sz, level)
      ensures forall k :: 0 <= k < level - 1 ==> lists[k] == []
    {
      seq<seq<nat>>(level, k requires 0 <= k => if k == level - 1 then TopBlocks(sz, level) else [])
    }

    static lemma MultipleFits(i: nat, n: nat, level: nat)
      requires level >= 1 && i < n
      ensures Multiple(i, level) + Pow2(level - 1) <= n * Pow2(level - 1)
    {
      var p := Pow2(level - 1);
      MulMonotone(i + 1, n, p);
      Distribute(i + 1, 1, p);
    }

    static lemma {:induction false} MultipleAligned(i: nat, k: nat)
      ensures Aligned(i * Pow2(k), k)
    {
      if k > 0 {
        MultipleAligned(i, k - 1);
        Doubling(k - 1);
        hide Pow2;
        ComposeHalf(i, Pow2(k - 1), 0);
      }
    }

    /** Unit x of the untouched arena belongs to top-level block number x / 2^(level - 1). */
    static lemma WholeAt(sz: nat, level: nat, x: nat)
      requires 1 <= level <= sz && x < Pow2(sz)
      ensures var p := Pow2(level - 1); var i := x / p;
              && i < Pow2(sz - level + 1)
              && Whole(sz, level)[x] == Block(Multiple(i, level), level - 1, false)
              && Multiple(i, level) <= x < Multiple(i, level) + p <= Pow2(sz)
              && Aligned(Multiple(i, level), level - 1)
    {
      BlockNumber(x, level, sz);
      MultipleAligned(x / Pow2(level - 1), level - 1);
    }

    static lemma BlockNumber(x: nat, level: nat, sz: nat)
      requires 1 <= level <= sz && x < Pow2(sz)
      ensures var p := Pow2(level - 1); var i := x / p;
              i < Pow2(sz - level + 1) && Multiple(i, level) <= x < Multiple(i, level) + p <= Pow2(sz)
    {
      hide Pow2;
      PowersAdd(sz - level + 1, level - 1);
      assert (sz - level + 1) + (level - 1) == sz;
      PieceOf(x, Pow2(level - 1), Pow2(sz - level + 1));
    }

    static lemma WholeCell(sz: nat, level: nat, x: nat)
      requires 1 <= level <= sz && x < Pow2(sz)
      ensures Cell(Whole(sz, level), x, level)
    {
      hide Whole, Aligned, Pow2;
      WholeAt(sz, level, x);
      var own, p := Whole(sz, level), Pow2(level - 1);
      var i := x / p;
      WholeSize(sz, level);
      forall y | Multiple(i, level) <= y < Multiple(i, level) + p ensures own[y] == own[x] {
        WholeAt(sz, level, y);
        Quotient(y, p, i, y - i * p);
      }
    }

    static lemma WholeSize(sz: nat, level: nat)
      requires 1 <= level <= sz
      ensures |Whole(sz, level)| == Pow2(sz) && |TopList(sz, level)| == level
      ensures forall x :: 0 <= x < Pow2(sz) ==> Whole(sz, level)[x].lv == level - 1 && !Whole(sz, level)[x].used
    {}

    static lemma WholeTiling(sz: nat, level: nat)
      requires 1 <= level <= sz
      ensures Tiling(Whole(sz, level), sz, level) && NoTwins(Whole(sz, level), level)
    {
      hide Whole, Cell;
      WholeSize(sz, level);
      forall x | 0 <= x < Pow2(sz) ensures Cell(Whole(sz, level), x, level) { WholeCell(sz, level, x); }
    }

    static lemma WholeLists(sz: nat, level: nat)
      requires 1 <= level <= sz
      ensures AllLists(TopList(sz, level), Whole(sz, level), level)
    {
      var own, lists := Whole(sz, level), TopList(sz, level);
      WholeTop(sz, level);
      hide Whole;
      WholeSize(sz, level);
      forall k | 0 <= k < level ensures Lists(lists[k], own, k) {}
    }

    static lemma TopBlockAt(sz: nat, level: nat, i: nat)
      requires 1 <= level <= sz && i < Pow2(sz - level + 1)
      ensures Multiple(i, level) < Pow2(sz)
      ensures Whole(sz, level)[Multiple(i, level)] == Block(Multiple(i, level), level - 1, false)
    {
      PowersAdd(sz - level + 1, level - 1);
      hide Pow2, Whole;
      MultipleFits(i, Pow2(sz - level + 1), level);
      WholeAt(sz, level, Multiple(i, level));
      Quotient(Multiple(i, level), Pow2(level - 1), i, 0);
    }

    static lemma WholeTop(sz: nat, level: nat)
      requires 1 <= level <= sz
      ensures Lists(TopList(sz, level)[level - 1], Whole(sz, level), level - 1)
    {
      hide Whole, Aligned, TopList, TopBlocks, Pow2;
      var own, p, L := Whole(sz, level), Pow2(level - 1), TopList(sz, level)[level - 1];
      var n := Pow2(sz - level + 1);
      WholeSize(sz, level);
      PowersAdd(sz - level + 1, level - 1);
      forall i | 0 <= i < |L| ensures L[i] < |own| && own[L[i]] == Block(L[i], level - 1, false) {
        TopBlockAt(sz, level, i);
      }
      forall i, j | 0 <= i < j < |L| ensures L[i] != L[j] { MultipleGrows(i, j, level); }
      forall x | 0 <= x < |own| && own[x] == Block(x, level - 1, false) ensures x in L {
        WholeAt(sz, level, x);
        assert L[x / p] == x;
      }
    }

    static lemma WholeThreads(hs: seq<nat>, ls: seq<nat>, sz: nat, level: nat)
      requires 1 <= level <= sz && |hs| == level && |ls| == Pow2(sz)
      requires forall k :: 0 <= k < level ==> hs[k] == if k == level - 1 then 0 else EOL
      requires TopLinked(ls, Pow2(sz - level + 1), Pow2(sz - level + 1), level)
      ensures AllThreaded(hs, ls, TopList(sz, level))
    {
      hide TopList, TopBlocks;
      var lists := TopList(sz, level);
      var L := lists[level - 1];
      assert L[0] == Multiple(0, level) == 0;
      forall i | 0 <= i < |L| ensures L[i] < |ls| && ls[L[i]] == Nth(L, i + 1) {
        assert TopLink(ls, i, |L|, level);
      }
      assert Threaded(hs[level - 1], ls, L);
      forall k | 0 <= k < |lists| ensures Threaded(hs[k], ls, lists[k]) {}
    }

    static predicate TopLinked(ls: seq<nat>, i: nat, n: nat, level: nat)
      requires level >= 1
    {
      forall j :: 0 <= j < i ==> TopLink(ls, j, n, level)
    }

    static predicate TopLink(ls: seq<nat>, j: nat, n: nat, level: nat)
      requires level >= 1
    {
      Multiple(j, level) < |ls| && ls[Multiple(j, level)] == if j == n - 1 then EOL else Multiple(j + 1, level)
    }

    static lemma NoTails(b: seq<u8>, own: seq<Block>)
      requires |b| == (|own| + 7) / 8 && forall i :: 0 <= i < |b| ==> b[i] == 0
      requires forall x :: 0 <= x < |own| ==> !own[x].used
      ensures Tails(b, own)
    {
      forall x | 0 <= x < |own| ensures !TailBit(b, x) { BitOfZero(x % 8); }
    }

    static lemma UnitBound(sz: nat)
      requires sz <= 28
      ensures Pow2(sz) <= 0x4000_0000
    {
      Pow2Monotone(sz, 28);
      hide Pow2;
      Pow2At64();
      Doubling(31);
      Doubling(30);
    }

    lemma Held()
      ensures forall o :: o in Repr() ==> allocated(o)
    {}

    lemma Units()
      requires Shape()
      ensures |own| == links.Length <= 0x4000_0000
      ensures |lists| == level
      ensures forall k, x :: 0 <= k < level && x in lists[k] ==> x < |own| && own[x] == Block(x, k, false)
    {
      hide AllThreaded, Tails, TailBit;
      UnitBound(sz);
      forall k, x | 0 <= k < level && x in lists[k] ensures x < |own| && own[x] == Block(x, k, false) {
        assert Lists(lists[k], own, k);
      }
    }

    /** A head word is EOL exactly when its list is empty. */
    lemma HeadTells(lv: nat)
      requires Shape() && lv < level
      ensures |lists| == level
      ensures lists[lv] == [] ==> heads[lv] == EOL
      ensures lists[lv] != [] ==> heads[lv] == lists[lv][0] < links.Length
    {
      Units();
      assert Threaded(heads[..][lv], links[..], lists[lv]);
    }

    /** *n */
    function Load(n: Cursor, lv: nat): u32
      requires lv < heads.Length && (n.Link? ==> n.at < links.Length)
      reads heads, links
    {
      match n
      case Head => heads[lv]
      case Link(a) => links[a]
    }

    /** *n = v */
    method Store(n: Cursor, lv: nat, v: u32)
      requires lv < heads.Length && (n.Link? ==> n.at < links.Length) && heads != links
      modifies heads, links
      ensures n == Head ==> heads[..] == old(heads[..])[lv := v] && links[..] == old(links[..])
      ensures n.Link? ==> heads[..] == old(heads[..]) && links[..] == old(links[..])[n.at := v]
    {
      match n
      case Head => heads[lv] := v;
      case Link(a) => links[a] := v;
    }

    /** _split_buddy: make the list of level lv non-empty, splitting a larger block if needed. */
    method Split(lv: nat) returns (ret: int)
      requires Valid() && lv < level
      modifies this, heads, links
      ensures Shape() && live == old(live) && failed == old(failed)
      ensures ret == 0 || ret == -1
      ensures ret == 0 ==> lists[lv] != [] && NoTwinsExcept(own, level, lists[lv][0])
      ensures ret < 0 ==> own == old(own) && forall k :: lv <= k < level ==> lists[k] == []
      ensures |lists| == old(|lists|) && forall k :: 0 <= k < lv ==> lists[k] == old(lists[k])
      decreases level - lv
    {
      hide Tiling, AllLists, Tails, AllThreaded, NoTwinsExcept;
      Units();
      HeadTells(lv);
      if heads[lv] != EOL {
        WeakerTwins(own, level, lists[lv][0]);
        return 0;
      }
      if lv + 1 >= level {
        return -1;
      }
      HeadTells(lv + 1);
      if heads[lv + 1] == EOL {
        ret := Split(lv + 1);
        if ret < 0 { return; }
      } else {
        WeakerTwins(own, level, lists[lv + 1][0]);
      }
      SplitStep(lv);
      ret := 0;
    }

    lemma WeakerTwins(own: seq<Block>, level: nat, hole: int)
      requires NoTwins(own, level)
      ensures NoTwinsExcept(own, level, hole)
    {
      forall x | 0 <= x < |own| && !own[x].used && own[x].at == x && x != hole && own[x].lv + 1 < level
        ensures NotTwin(own, x, hole)
      {
        assert NotTwin(own, x, -1);
      }
    }

    /** The body of _split_buddy after the checks: the first block of level lv + 1 becomes two. */
    method SplitStep(lv: nat)
      requires Shape() && lv + 1 < level && |lists| == level
      requires lists[lv] == [] && lists[lv + 1] != []
      requires NoTwinsExcept(own, level, lists[lv + 1][0])
      modifies this, heads, links
      ensures Shape() && live == old(live) && failed == old(failed)
      ensures |lists| == old(|lists|) && lists[lv] != [] && NoTwinsExcept(own, level, lists[lv][0])
      ensures forall k :: 0 <= k < lv ==> lists[k] == old(lists[k])
    {
      hide Tiling, AllLists, Tails, AllThreaded, NoTwinsExcept, LiveOf, Halved;
      Units();
      ghost var a := lists[lv + 1][0];
      ghost var hs: seq<nat>, ls: seq<nat> := heads[..], links[..];
      SplitAll(own, sz, level, lists, lv, b[..], hs, ls);

      heads[lv] := heads[lv + 1];
      heads[lv + 1] := links[heads[lv]];
      var next := heads[lv] + Pow2(lv);
      links[next] := EOL;
      links[heads[lv]] := next;

      assert heads[..] == hs[lv := a][lv + 1 := ls[a]];
      assert links[..] == ls[a + Pow2(lv) := EOL][a := a + Pow2(lv)];
      own := Halved(own, a, lv);
      lists := lists[lv := [a, a + Pow2(lv)]][lv + 1 := lists[lv + 1][1..]];
    }

    /** The tiling, lists and links after the block was halved. */
    static lemma SplitAll(own: seq<Block>, sz: nat, level: nat, lists: seq<seq<nat>>, lv: nat, b: seq<u8>,
                          hs: seq<nat>, ls: seq<nat>)
      requires Tiling(own, sz, level) && AllLists(lists, own, level) && AllThreaded(hs, ls, lists) && Tails(b, own)
      requires lv + 1 < level == |lists| == |hs| && |ls| == |own| && lists[lv] == [] && lists[lv + 1] != []
      requires NoTwinsExcept(own, level, lists[lv + 1][0])
      ensures var a := lists[lv + 1][0]; var h := a + Pow2(lv); var own' := Halved(own, a, lv);
        && h < |ls| && hs[lv + 1] == a && Tiling(own', sz, level) && NoTwinsExcept(own', level, a)
        && AllLists(lists[lv := [a, h]][lv + 1 := lists[lv + 1][1..]], own', level)
        && AllThreaded(hs[lv := a][lv + 1 := ls[a]], ls[h := EOL][a := h],
                       lists[lv := [a, h]][lv + 1 := lists[lv + 1][1..]])
        && Tails(b, own') && LiveOf(own') == LiveOf(own)
    {
      hide Tiling, AllLists, Tails, AllThreaded, NoTwinsExcept, LiveOf, SameUsed, Halved, Pow2;
      var a := lists[lv + 1][0];
      HeadOf(hs, ls, lists, lv + 1);
      SplitLists(own, sz, level, lists, lv);
      SplitCells(own, sz, level, a, lv);
      Doubling(lv);
      SplitTiling(own, sz, level, a, lv);
      SplitTwins(own, sz, level, a, lv);
      SameUsedKeeps(b, own, Halved(own, a, lv));
      SplitThreads(hs, ls, lists, own, lv);
    }

    static lemma HeadOf(hs: seq<nat>, ls: seq<nat>, lists: seq<seq<nat>>, lv: nat)
      requires AllThreaded(hs, ls, lists) && lv < |lists| && lists[lv] != []
      ensures lv < |hs| && hs[lv] == lists[lv][0]
    {
      assert Threaded(hs[lv], ls, lists[lv]);
    }

    static lemma SplitThreads(hs: seq<nat>, ls: seq<nat>, lists: seq<seq<nat>>, own: seq<Block>, lv: nat)
      requires AllThreaded(hs, ls, lists) && lv + 1 < |lists| == |hs| && |ls| == |own|
      requires AllLists(lists, own, |lists|)
      requires lists[lv + 1] != [] && lists[lv + 1][0] + Pow2(lv) < |ls|
      requires own[lists[lv + 1][0] + Pow2(lv)] == Block(lists[lv + 1][0], lv + 1, false)
      ensures var a := lists[lv + 1][0]; var h := a + Pow2(lv);
              AllThreaded(hs[lv := a][lv + 1 := ls[a]], ls[h := EOL][a := h],
                          lists[lv := [a, h]][lv + 1 := lists[lv + 1][1..]])
    {
      hide AllThreaded, AllLists, Threaded;
      var a := lists[lv + 1][0];
      var h := a + Pow2(lv);
      TakeThreads(hs, ls, lists, lv + 1);
      var ls' := ls[h := EOL][a := h];
      var hs1, lists1 := hs[lv + 1 := ls[a]], lists[lv + 1 := lists[lv + 1][1..]];
      forall j, x | 0 <= j < |lists1| && j != lv && x in lists1[j] && x < |ls| ensures ls'[x] == ls[x] {
        Elsewhere(lists, own, lv, j, x);
      }
      SplitPair(ls', a, h);
      Rethread(hs1, ls, lists1, lv, a, ls', [a, h]);
      assert hs1[lv := a] == hs[lv := a][lv + 1 := ls[a]];
      assert lists1[lv := [a, h]] == lists[lv := [a, h]][lv + 1 := lists[lv + 1][1..]];
    }

    static lemma Elsewhere(lists: seq<seq<nat>>, own: seq<Block>, lv: nat, j: nat, x: nat)
      requires AllLists(lists, own, |lists|) && lv + 1 < |lists| && lists[lv + 1] != []
      requires lists[lv + 1][0] + Pow2(lv) < |own|
      requires own[lists[lv + 1][0] + Pow2(lv)] == Block(lists[lv + 1][0], lv + 1, false)
      requires j < |lists| && x in (if j == lv + 1 then lists[j][1..] else lists[j])
      ensures x != lists[lv + 1][0] && x != lists[lv + 1][0] + Pow2(lv)
    {
      assert Lists(lists[j], own, j) && Lists(lists[lv + 1], own, lv + 1);
      if j == lv + 1 {
        var M := lists[j][1..];
        var i :| 0 <= i < |M| && M[i] == x;
        assert lists[j][i + 1] == x;
      }
    }

    static lemma SplitPair(ls: seq<nat>, a: nat, h: nat)
      requires a < |ls| && h < |ls| && ls[a] == h && ls[h] == EOL
      ensures Threaded(a, ls, [a, h])
    {}

    /** buddy_alloc2: take 2^k consecutive blocks, or return -1. */
    method Alloc(k: int) returns (a: int)
      requires Valid()
      modifies Repr()
      ensures Valid()
      ensures a < 0 ==> a == -1 && live == old(live) && own == old(own) && failed == old(failed) + 1
      ensures a >= 0 ==> 0 <= k < level && failed == old(failed)
                         && a !in old(live) && live == old(live)[a := k]
                         && Unclaimed(old(live), links.Length, a, k)
      ensures 0 <= k < level ==> (a >= 0 <==> exists r: nat :: Unclaimed(old(live), links.Length, r, k))
    {
      hide Tiling, AllLists, Tails, AllThreaded, NoTwinsExcept, SameUsed, FreeRun, Unclaimed, Aligned;
      if k < 0 || k >= level {
        failed := failed + 1;
        return -1;
      }
      ghost var own0 := own;
      var ret := Split(k);
      Units();
      if ret < 0 {
        NoRoom(own, sz, level, lists, k);
        failed := failed + 1;
        return -1;
      }
      RunIsUnclaimed(own, sz, level, lists[k][0], k);
      a := TakeHead(k);
    }

    /** The body of buddy_alloc2 after splitting: unlink the first block of level k and flag its tail. */
    method TakeHead(k: nat) returns (a: nat)
      requires Shape() && k < level && |lists| == level && lists[k] != []
      requires NoTwinsExcept(own, level, lists[k][0])
      modifies Repr()
      ensures Valid() && failed == old(failed)
      ensures a == old(lists[k][0]) && a !in old(live) && live == old(live)[a := k]
      ensures FreeRun(old(own), a, k)
    {
      hide Tiling, AllLists, Tails, AllThreaded, NoTwinsExcept, FreeRun, Aligned;
      Units();
      HeadTells(k);
      a := heads[k];
      TakeTiling(own, sz, level, a, k);
      TakeLists(own, level, lists, k);
      TakeTails(b[..], own, a, k);
      TakeThreads(heads[..], links[..], lists, k);
      ghost var hs: seq<nat> := heads[..];
      ghost var bs := b[..];
      heads[k] := links[a];
      assert heads[..] == hs[k := links[a]];
      var t := a + Pow2(k) - 1;
      b[t / 8] := ByteSet(b[t / 8], t % 8);
      assert b[..] == SetTail(bs, t);
      own := Taken(own, a, k);
      lists := lists[k := lists[k][1..]];
      live := live[a := k];
    }

    static lemma TakeThreads(hs: seq<nat>, ls: seq<nat>, lists: seq<seq<nat>>, k: nat)
      requires AllThreaded(hs, ls, lists) && k < |lists| && lists[k] != []
      ensures lists[k][0] < |ls|
      ensures AllThreaded(hs[k := ls[lists[k][0]]], ls, lists[k := lists[k][1..]])
    {
      assert Threaded(hs[k], ls, lists[k]);
      ThreadedPop(hs[k], ls, lists[k]);
      Rethread(hs, ls, lists, k, ls[lists[k][0]], ls, lists[k][1..]);
    }

    /** The position of the cursor in the list it walks. */
    static predicate CursorAt(n: Cursor, L: seq<nat>, p: nat) {
      p <= |L| && n == if p == 0 then Head else Link(L[p - 1])
    }

    /** The loop of _merge that drops two blocks from the free list of level lv. */
    method Unlink(lv: nat, s: nat) returns (ghost L: seq<nat>)
      requires Shape() && lv < level && |lists| == level
      modifies heads, links
      ensures AllThreaded(heads[..], links[..], lists[lv := L]) && Distinct(L)
      ensures forall x :: x in L <==> x in lists[lv] && x != s && x != s + Pow2(lv)
    {
      hide AllLists, Tiling, Tails, AllThreaded, Distinct, Without, Threaded;
      L := lists[lv];
      Units();
      ListIsDistinct(lists, own, level, lv);
      assert lists[lv := L] == lists;
      var n := Head;
      ghost var p := 0;
      CursorReads(heads[..], links[..], lists, lv, L, p);
      while Load(n, lv) != EOL
        invariant 0 <= p <= |L| && CursorAt(n, L, p)
        invariant n.Link? ==> n.at < links.Length
        invariant AllThreaded(heads[..], links[..], lists[lv := L]) && Distinct(L)
        invariant forall x :: x in L ==> x in lists[lv]
        invariant forall x :: x in lists[lv] ==> x in L || x == s || x == s + Pow2(lv)
        invariant forall i :: 0 <= i < p ==> L[i] != s && L[i] != s + Pow2(lv)
        invariant Load(n, lv) == Nth(L, p)
        decreases |L| - p
      {
        var cur := Load(n, lv);
        CursorReads(heads[..], links[..], lists, lv, L, p);
        if s == cur || s + Pow2(lv) == cur {
          UnlinkAt(heads[..], links[..], lists, own, lv, L, p);
          DistinctWithout(L, p);
          WithoutPrefix(L, p);
          Store(n, lv, links[cur]);
          L := Without(L, p);
        } else {
          n := Link(cur);
          p := p + 1;
        }
        CursorReads(heads[..], links[..], lists, lv, L, p);
      }
      CursorReads(heads[..], links[..], lists, lv, L, p);
      forall x | x in L ensures x != s && x != s + Pow2(lv) {
        var i :| 0 <= i < |L| && L[i] == x;
      }
    }

    static lemma WithoutPrefix(L: seq<nat>, p: nat)
      requires p < |L|
      ensures |Without(L, p)| == |L| - 1
      ensures forall i :: 0 <= i < p ==> Without(L, p)[i] == L[i]
    {}

    static lemma ListIsDistinct(lists: seq<seq<nat>>, own: seq<Block>, level: nat, k: nat)
      requires AllLists(lists, own, level) && k < level
      ensures |lists| == level && Distinct(lists[k])
      ensures forall x :: x in lists[k] ==> x < |own| && own[x] == Block(x, k, false)
    {
      assert Lists(lists[k], own, k);
    }

    /** What the words behind a cursor hold. */
    static lemma CursorReads(hs: seq<nat>, ls: seq<nat>, lists: seq<seq<nat>>, lv: nat, L: seq<nat>, p: nat)
      requires lv < |lists| && AllThreaded(hs, ls, lists[lv := L]) && p <= |L| && |ls| <= 0x4000_0000
      ensures |hs| == |lists|
      ensures p == 0 ==> hs[lv] == Nth(L, 0)
      ensures p > 0 ==> L[p - 1] < |ls| && ls[L[p - 1]] == Nth(L, p)
      ensures Nth(L, p) != EOL <==> p < |L|
      ensures p < |L| ==> L[p] < |ls|
    {
      assert Threaded(hs[lv], ls, lists[lv := L][lv]);
    }

    static lemma UnlinkAt(hs: seq<nat>, ls: seq<nat>, lists: seq<seq<nat>>, own: seq<Block>, lv: nat, L: seq<nat>,
            p: nat)
      requires AllLists(lists, own, |lists|) && lv < |lists|
      requires AllThreaded(hs, ls, lists[lv := L]) && Distinct(L) && p < |L| && L[p] < |ls|
      requires forall x :: x in L ==> x in lists[lv]
      ensures |hs| == |lists|
      ensures p == 0 ==> AllThreaded(hs[lv := ls[L[p]]], ls, lists[lv := Without(L, p)])
      ensures p > 0 ==> L[p - 1] < |ls| && AllThreaded(hs, ls[L[p - 1] := ls[L[p]]], lists[lv := Without(L, p)])
    {
      var lists1 := lists[lv := L];
      assert Threaded(hs[lv], ls, lists1[lv]);
      if p == 0 {
        ThreadedPop(hs[lv], ls, L);
        assert L[1..] == Without(L, 0);
        Rethread(hs, ls, lists1, lv, ls[L[0]], ls, Without(L, p));
        assert lists1[lv := Without(L, p)] == lists[lv := Without(L, p)];
      } else {
        ThreadedUnlink(hs[lv], ls, L, p);
        RethreadLink(hs, ls, lists, own, lv, L, L[p - 1], ls[L[p - 1] := ls[L[p]]], Without(L, p));
      }
    }

    /** Relinking one list through a link word of a block of its own level. */
    static lemma RethreadLink(hs: seq<nat>, ls: seq<nat>, lists: seq<seq<nat>>, own: seq<Block>, lv: nat,
                              L: seq<nat>, at: nat, ls': seq<nat>, L': seq<nat>)
      requires AllLists(lists, own, |lists|) && lv < |lists| == |hs|
      requires AllThreaded(hs, ls, lists[lv := L]) && at in lists[lv]
      requires |ls'| == |ls| && forall x :: 0 <= x < |ls| && x != at ==> ls'[x] == ls[x]
      requires Threaded(hs[lv], ls', L')
      ensures AllThreaded(hs, ls', lists[lv := L'])
    {
      hide AllThreaded, Threaded;
      var lists1 := lists[lv := L];
      forall j, x | 0 <= j < |lists1| && j != lv && x in lists1[j] && x < |ls| ensures ls'[x] == ls[x] {
        assert Lists(lists[j], own, j) && Lists(lists[lv], own, lv);
      }
      Rethread(hs, ls, lists1, lv, hs[lv], ls', L');
      assert lists1[lv := L'] == lists[lv := L'];
      assert hs[lv := hs[lv]] == hs;
    }

    /** _merge: join the free block at off with its buddy, as far up as possible. */
    method Merge(off: nat, lv: nat)
      requires Shape() && NoTwinsExcept(own, level, off) && off < |own| && own[off] == Block(off, lv, false)
      requires lv < level
      modifies this, heads, links
      ensures Valid() && live == old(live) && failed == old(failed)
      decreases level - lv
    {
      hide AllLists, Tiling, Tails, AllThreaded, NoTwinsExcept, TailBit, Aligned, Pow2, Merged, Twins, Parent,
           Sibling, LiveOf, RoundTo, NoTailIn;
      Units();
      OffAligned(own, sz, level, off);
      if lv + 1 >= level {
        TopNotTwin(own, sz, level, off, lv);
        return;
      }
      RoundToParent(off, lv, sz);
      var s := RoundTo(off, lv + 1);
      var found, at := FindTail(s, Pow2(lv + 1));
      if found {
        BuddyNotFree(b[..], own, sz, level, off, lv, at);
        return;
      }
      MergeReady(b[..], own, sz, level, off, lv);
      JoinTwins(s, lv);
      Merge(s, lv + 1);
    }

    /** off / (1 << k) * (1 << k) */
    static function RoundTo(off: nat, k: nat): int {
      off / Pow2(k) * Pow2(k)
    }

    static lemma RoundToParent(off: nat, lv: nat, sz: nat)
      requires Aligned(off, lv) && lv + 1 <= sz && off < Pow2(sz)
      ensures RoundTo(off, lv + 1) == Parent(off, lv) >= 0
      ensures RoundTo(off, lv + 1) + Pow2(lv + 1) <= Pow2(sz)
    {
      RoundDown(off, lv);
      ParentShape(off, lv);
      SiblingFits(off, lv, sz);
    }

    static lemma MergeReady(b: seq<u8>, own: seq<Block>, sz: nat, level: nat, off: nat, lv: nat)
      requires Tiling(own, sz, level) && Tails(b, own) && NoTwinsExcept(own, level, off)
      requires lv + 1 < level && off < |own| && own[off] == Block(off, lv, false)
      requires Parent(off, lv) >= 0 && Parent(off, lv) + Pow2(lv + 1) <= |own|
      requires NoTailIn(b, Parent(off, lv), Pow2(lv + 1))
      ensures var s := Parent(off, lv);
              && Twins(own, sz, level, s, lv)
              && Tiling(Merged(own, s, lv), sz, level) && Tails(b, Merged(own, s, lv))
              && LiveOf(Merged(own, s, lv)) == LiveOf(own)
              && NoTwinsExcept(Merged(own, s, lv), level, s)
    {
      hide Tiling, Tails, TailBit, NoTwinsExcept, LiveOf, Merged, SameUsed;
      var s := Parent(off, lv);
      OffAligned(own, sz, level, off);
      ParentShape(off, lv);
      SiblingSides(off, lv);
      BuddyIsFree(b, own, sz, level, off, lv);
      MergeTiling(own, sz, level, s, lv);
      MergeTwins(own, sz, level, s, lv, off);
      SameUsedKeeps(b, own, Merged(own, s, lv));
    }

    static ghost predicate NoTailIn(b: seq<u8>, s: nat, n: nat) {
      forall x :: s <= x < s + n ==> x / 8 < |b| && !TailBit(b, x)
    }

    /** The bitmap scan of _merge. */
    method FindTail(s: nat, n: nat) returns (found: bool, ghost at: nat)
      requires Tails(b[..], own) && s + n <= |own|
      ensures found ==> s <= at < s + n && at / 8 < b.Length && TailBit(b[..], at)
      ensures !found ==> NoTailIn(b[..], s, n)
    {
      hide Tails, TailBit;
      BitmapSpan(b[..], own, s + n);
      var i := 0;
      at := s;
      while i < n
        invariant 0 <= i <= n
        invariant forall x :: s <= x < s + i ==> !TailBit(b[..], x)
      {
        TailIsBit(b[..], s + i);
        if ByteTest(b[(s + i) / 8], (s + i) % 8) {
          at := s + i;
          return true, at;
        }
        i := i + 1;
      }
      found := false;
    }

    static lemma OffAligned(own: seq<Block>, sz: nat, level: nat, off: nat)
      requires Tiling(own, sz, level) && off < |own| && own[off].at == off
      ensures Aligned(off, own[off].lv) && |own| == Pow2(sz)
    {
      assert Cell(own, off, level);
    }

    static lemma BitmapSpan(b: seq<u8>, own: seq<Block>, end: nat)
      requires Tails(b, own) && end <= |own|
      ensures forall x :: 0 <= x < end ==> x / 8 < |b|
    {}

    static lemma TailIsBit(b: seq<u8>, x: nat)
      requires x / 8 < |b|
      ensures TailBit(b, x) == ByteTest(b[x / 8], x % 8)
    {}

    /** Both halves leave the list of level lv and their union is pushed on the next level. */
    method JoinTwins(s: nat, lv: nat)
      requires Shape() && Twins(own, sz, level, s, lv)
      requires Tiling(Merged(own, s, lv), sz, level) && Tails(b[..], Merged(own, s, lv))
      requires LiveOf(Merged(own, s, lv)) == LiveOf(own)
      modifies this, heads, links
      ensures Shape() && live == old(live) && failed == old(failed)
      ensures own == old(Merged(own, s, lv)) && s < |own| && own[s] == Block(s, lv + 1, false)
    {
      hide AllLists, Tiling, Tails, AllThreaded, Distinct;
      Units();
      ghost var L := Unlink(lv, s);
      MergeLists(own, sz, level, lists, s, lv, L);
      ghost var lists1 := lists[lv := L];
      ghost var hs: seq<nat>, ls: seq<nat> := heads[..], links[..];
      NotListed(lists, own, level, s, lv + 1);
      assert s !in L;
      PushThreads(hs, ls, lists1, own, lists, lv + 1, s);
      links[s] := heads[lv + 1];
      heads[lv + 1] := s;
      assert links[..] == ls[s := hs[lv + 1]];
      assert heads[..] == hs[lv + 1 := s];
      own := Merged(own, s, lv);
      lists := lists1[lv + 1 := [s] + lists1[lv + 1]];
    }

    static lemma PushThreads(hs: seq<nat>, ls: seq<nat>, lists1: seq<seq<nat>>, own: seq<Block>,
                             lists: seq<seq<nat>>, k: nat, s: nat)
      requires AllThreaded(hs, ls, lists1) && AllLists(lists, own, |lists|) && |lists1| == |lists|
      requires 0 < k < |lists| && s < |ls| && |own| == |ls|
      requires own[s] == Block(s, k - 1, false) && s !in lists1[k - 1]
      requires forall j :: 0 <= j < |lists| && j != k - 1 ==> lists1[j] == lists[j]
      ensures |hs| == |lists|
      ensures AllThreaded(hs[k := s], ls[s := hs[k]], lists1[k := [s] + lists1[k]])
    {
      forall j, x | 0 <= j < |lists1| && x in lists1[j] ensures x != s {
        if j != k - 1 { assert Lists(lists[j], own, j); }
      }
      assert Threaded(hs[k], ls, lists1[k]);
      ThreadedPush(hs[k], ls, lists1[k], s);
      Rethread(hs, ls, lists1, k, s, ls[s := hs[k]], [s] + lists1[k]);
    }

    /** buddy_free2: release the live block at a, whose size the bitmap tells. */
    method Free(a: nat)
      requires Valid() && a in live
      modifies Repr()
      ensures Valid() && live == old(live) - {a} && failed == old(failed)
    {
      hide AllLists, Tiling, Tails, AllThreaded, NoTwinsExcept, TailBit, TailOf, Aligned, LiveOf, Pow2;
      Units();
      ghost var k := live[a];
      LiveIsOwn(own, a);
      ReleaseTiling(own, sz, level, a, k);
      ReleaseTails(b[..], own, a, k);
      var size := FindSize(a, k);
      ghost var bs: seq<u8> := b[..];
      var t := a + Pow2(size) - 1;
      b[t / 8] := ByteClear(b[t / 8], t % 8);
      assert b[..] == ClearTail(bs, t);
      Return(a, size);
      Merge(a, size);
    }

    /** The search of buddy_free2 for the smallest size whose tail bit is set. */
    method FindSize(a: nat, ghost k: nat) returns (size: nat)
      requires Tails(b[..], own) && a + Pow2(k) <= |own|
      requires forall y :: a <= y < a + Pow2(k) ==> own[y] == Block(a, k, true)
      ensures size == k
    {
      hide Tails, TailBit;
      BitmapSpan(b[..], own, a + Pow2(k));
      size := 0;
      while true
        invariant 0 <= size <= k
        decreases k - size
      {
        SizeTest(b[..], own, a, k, size);
        TailIsBit(b[..], a + Pow2(size) - 1);
        if ByteTest(b[(a + Pow2(size) - 1) / 8], (a + Pow2(size) - 1) % 8) {
          return;
        }
        size := size + 1;
      }
    }

    static lemma LiveIsOwn(own: seq<Block>, a: nat)
      requires a in LiveOf(own)
      ensures a < |own| && own[a] == Block(a, LiveOf(own)[a], true)
    {}

    /** Size recovery: of the candidate tails of a live block only its own is flagged. */
    static lemma SizeTest(b: seq<u8>, own: seq<Block>, a: nat, k: nat, size: nat)
      requires Tails(b, own) && a + Pow2(k) <= |own| && size <= k
      requires forall y :: a <= y < a + Pow2(k) ==> own[y] == Block(a, k, true)
      ensures Pow2(size) <= Pow2(k) && (a + Pow2(size) - 1) / 8 < |b|
      ensures TailBit(b, a + Pow2(size) - 1) <==> size == k
    {
      Pow2Monotone(size, k);
    }

    /** The list walk of buddy_free2: insert a before the first larger block of its level. */
    method Return(a: nat, k: nat)
      requires 1 <= level <= sz <= 28 && heads != links && heads.Length == level && links.Length == Pow2(sz)
      requires |own| == links.Length && AllLists(lists, own, level) && AllThreaded(heads[..], links[..], lists)
      requires k < level && a + Pow2(k) <= |own|
      requires forall y :: a <= y < a + Pow2(k) ==> own[y] == Block(a, k, true)
      requires Tiling(Released(own, a, k), sz, level) && Tails(b[..], Released(own, a, k))
      requires LiveOf(Released(own, a, k)) == live - {a}
      modifies this, heads, links
      ensures Shape() && own == Released(old(own), a, k) && live == old(live) - {a} && failed == old(failed)
      ensures k < |old(lists)| && exists p :: FirstAbove(old(lists[k]), p, a)
                                              && lists == old(lists)[k := With(old(lists[k]), p, a)]
    {
      hide AllLists, Tiling, Tails, AllThreaded, With, Distinct, LiveOf, Threaded;
      UnitBound(sz);
      assert |links[..]| == links.Length;
      var n := Head;
      var inserted := false;
      ListIsDistinct(lists, own, level, k);
      ghost var L, p := lists[k], 0;
      assert lists[k := L] == lists;
      CursorReads(heads[..], links[..], lists, k, L, 0);
      NotListed(lists, own, level, a, k);
      while Load(n, k) != EOL && !inserted
        invariant 0 <= p <= |L| && CursorAt(n, L, p)
        invariant n.Link? ==> n.at < links.Length
        invariant forall i :: 0 <= i < p ==> L[i] <= a
        invariant !inserted ==> heads[..] == old(heads[..]) && links[..] == old(links[..])
        invariant !inserted ==> Load(n, k) == Nth(L, p)
        invariant inserted ==> p < |L| && a < L[p]
        invariant inserted ==> AllThreaded(heads[..], links[..], lists[k := With(L, p, a)])
        decreases |L| - p, !inserted
        modifies heads, links
      {
        var cur := Load(n, k);
        CursorReads(heads[..], links[..], lists, k, L, p);
        if a < cur {
          InsertAt(heads[..], links[..], lists, own, k, L, p, a);
          Store(n, k, a);
          links[a] := cur;
          inserted := true;
        } else {
          CursorReads(heads[..], links[..], lists, k, L, p + 1);
          n := Link(cur);
          p := p + 1;
        }
      }
      if !inserted {
        CursorReads(heads[..], links[..], lists, k, L, p);
        InsertAt(heads[..], links[..], lists, own, k, L, p, a);
        Store(n, k, a);
        links[a] := EOL;
      }
      DistinctWith(L, p, a);
      ReleaseLists(own, level, lists, a, k, With(L, p, a));
      own := Released(own, a, k);
      lists := lists[k := With(L, p, a)];
      live := live - {a};
    }

    static lemma InsertAt(hs: seq<nat>, ls: seq<nat>, lists: seq<seq<nat>>, own: seq<Block>, k: nat,
                          L: seq<nat>, p: nat, a: nat)
      requires AllLists(lists, own, |lists|) && k < |lists| && L == lists[k] && p <= |L|
      requires AllThreaded(hs, ls, lists) && a < |ls| && |own| == |ls| && own[a].used
      ensures |hs| == |lists|
      ensures p == 0 ==> AllThreaded(hs[k := a], ls[a := Nth(L, p)], lists[k := With(L, p, a)])
      ensures p > 0 ==> L[p - 1] < |ls|
                        && AllThreaded(hs, ls[L[p - 1] := a][a := Nth(L, p)], lists[k := With(L, p, a)])
    {
      hide With, Threaded;
      ListIsDistinct(lists, own, |lists|, k);
      assert Threaded(hs[k], ls, lists[k]);
      if p == 0 {
        InsertFront(hs, ls, lists, own, k, a);
      } else {
        ThreadedInsert(hs[k], ls, L, p, a);
        InsertLater(hs, ls, lists, own, k, L[p - 1], a, ls[L[p - 1] := a][a := Nth(L, p)], With(L, p, a));
      }
    }

    static lemma InsertFront(hs: seq<nat>, ls: seq<nat>, lists: seq<seq<nat>>, own: seq<Block>, k: nat, a: nat)
      requires AllLists(lists, own, |lists|) && k < |lists|
      requires AllThreaded(hs, ls, lists) && a < |ls| && |own| == |ls| && own[a].used
      ensures |hs| == |lists|
      ensures AllThreaded(hs[k := a], ls[a := Nth(lists[k], 0)], lists[k := With(lists[k], 0, a)])
    {
      assert Threaded(hs[k], ls, lists[k]);
      NotListed(lists, own, |lists|, a, k);
      ThreadedPush(hs[k], ls, lists[k], a);
      assert With(lists[k], 0, a) == [a] + lists[k];
      InsertLater(hs, ls, lists, own, k, a, a, ls[a := hs[k]], [a] + lists[k]);
    }

    static lemma InsertLater(hs: seq<nat>, ls: seq<nat>, lists: seq<seq<nat>>, own: seq<Block>, k: nat,
                             at: nat, a: nat, ls': seq<nat>, L': seq<nat>)
      requires AllLists(lists, own, |lists|) && k < |lists|
      requires |hs| == |lists| && AllThreaded(hs, ls, lists) && (at in lists[k] || at == a)
      requires a < |own| && own[a].used
      requires |ls'| == |ls| && forall x :: 0 <= x < |ls| && x != at && x != a ==> ls'[x] == ls[x]
      requires exists h :: Threaded(h, ls', L')
      ensures forall h :: Threaded(h, ls', L') ==> AllThreaded(hs[k := h], ls', lists[k := L'])
      ensures Threaded(hs[k], ls', L') ==> AllThreaded(hs, ls', lists[k := L'])
    {
      hide AllThreaded, Threaded;
      forall j, x | 0 <= j < |lists| && j != k && x in lists[j] && x < |ls| ensures ls'[x] == ls[x] {
        assert Lists(lists[j], own, j) && Lists(lists[k], own, k);
      }
      forall h | Threaded(h, ls', L') ensures AllThreaded(hs[k := h], ls', lists[k := L']) {
        Rethread(hs, ls, lists, k, h, ls', L');
      }
      assert hs[k := hs[k]] == hs;
    }

    /** Allocating and freeing in turn restores every free block. */
    method AllocThenFree(k: int) returns (ok: bool)
      requires Valid()
      modifies Repr()
      ensures Valid() && live == old(live) && own == old(own)
      ensures ok <==> failed == old(failed)
    {
      hide AllLists, Tiling, Tails, AllThreaded, NoTwinsExcept, Unclaimed;
      var a := Alloc(k);
      if a < 0 { return false; }
      Free(a);
      assert live == old(live);
      HistoryIndependent(own, old(own), sz, level);
      ok := true;
    }
  }

  lemma LiveIsArena(m: Buddy)
    requires m.Valid()
    ensures Arena(m.live, m.links.Length)
    ensures m.links.Length <= 0x4000_0000
  {
    hide AllLists, Tails, AllThreaded, NoTwinsExcept, Tiling;
    m.Units();
    forall a | a in m.live ensures a + Pow2(m.live[a]) <= m.links.Length {
      assert a in LiveOf(m.own);
      LiveFits(m.own, m.sz, m.level, a);
    }
    forall a, c | a in m.live && c in m.live && a != c
      ensures a + Pow2(m.live[a]) <= c || c + Pow2(m.live[c]) <= a
    {
      LiveDisjoint(m.own, m.sz, m.level, a, c);
    }
  }

  /** Allocated blocks are aligned. */
  lemma LiveAligned(m: Buddy)
    requires m.Valid()
    ensures forall a :: a in m.live ==> Aligned(a, m.live[a])
  {
    hide AllLists, Tails, AllThreaded, NoTwinsExcept;
    forall a | a in m.live ensures Aligned(a, m.live[a]) {
      assert a in LiveOf(m.own);
      assert Cell(m.own, a, m.level);
    }
  }

  /** A request for up to 64 units is met while fewer than 2^sz / 64 - 1 such blocks are allocated. */
  lemma RequestMet(m: Buddy, k: nat) returns (a: nat)
    requires m.Valid() && k <= 6 && (forall c :: c in m.live ==> m.live[c] <= 6)
    requires 64 * (|m.live| + 1) < m.links.Length
    ensures Unclaimed(m.live, m.links.Length, a, k)
  {
    hide Buddy.Valid;
    LiveAligned(m);
    a := RoomLeft(m.live, m.links.Length, k);
  }

  lemma LiveFits(own: seq<Block>, sz: nat, level: nat, a: nat)
    requires Tiling(own, sz, level) && a in LiveOf(own)
    ensures a + Pow2(own[a].lv) <= |own|
  {
    assert Cell(own, a, level);
  }

  /** Two allocators of one size with the same allocated blocks have the same free blocks on
      every level, whatever operations led there. */
  lemma SameAllocatedSameFree(m1: Buddy, m2: Buddy, k: nat, x: nat)
    requires m1.Valid() && m2.Valid() && m1.sz == m2.sz && m1.level == m2.level && m1.live == m2.live
    requires k < m1.level
    ensures |m1.lists| == |m2.lists| == m1.level
    ensures x in m1.lists[k] <==> x in m2.lists[k]
  {
    hide Tails, AllThreaded, NoTwinsExcept, Tiling;
    HistoryIndependent(m1.own, m2.own, m1.sz, m1.level);
    assert Lists(m1.lists[k], m1.own, k) && Lists(m2.lists[k], m2.own, k);
  }
}
