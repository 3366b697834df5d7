/** The routing information base as a value: a one-bit-per-level radix tree of routes,
    walked from the root, and the longest-prefix-match table it stands for. */
module Rib {
  import opened Arith
  import opened Bits

  datatype Option<T> = None | Some(value: T)

  /** A radix subtree: `route` is the next hop of a valid node, `mark` its update mark. */
  datatype Rib = Nil | Node(route: Option<u16>, mark: bool, left: Rib, right: Rib)

  /** What a reader of the tree sees at one position: the two subtrees below it and the next
      hop inherited from the deepest route at or above it (0 for none).  Below a missing child
      the position continues with two missing subtrees. */
  datatype Cur = Cur(left: Rib, right: Rib, ext: u16)

  function Child(r: Rib, b: bool): Rib {
    if r.Nil? then Nil else if b then r.right else r.left
  }

  function Ext(r: Rib, e: u16): u16 {
    if r.Node? && r.route.Some? then r.route.value else e
  }

  function Enter(r: Rib, e: u16): Cur {
    if r.Nil? then Cur(Nil, Nil, e) else Cur(r.left, r.right, Ext(r, e))
  }

  function Down(c: Cur, b: bool): Cur {
    Enter(if b then c.right else c.left, c.ext)
  }

  /** The position n bits below c along the n low bits of i, most significant first. */
  function SubN(c: Cur, i: nat, n: nat): Cur {
    if n == 0 then c else Down(SubN(c, i / 2, n - 1), i % 2 == 1)
  }

  predicate IsLeaf(c: Cur) { c.left.Nil? && c.right.Nil? }

  function Max(x: nat, y: nat): nat { if x < y then y else x }

  function Height(r: Rib): nat {
    if r.Nil? then 0 else 1 + Max(Height(r.left), Height(r.right))
  }

  /** How many levels exist below the position. */
  function Tall(c: Cur): nat { Max(Height(c.left), Height(c.right)) }

  // ----- walking

  lemma {:induction false} SubNHead(c: Cur, i: nat, n: nat)
    ensures SubN(c, i, n + 1) == SubN(Down(c, Bit(i, n)), i, n)
  {
    if n > 0 { SubNHead(c, i / 2, n - 1); }
  }

  lemma SubNLast(c: Cur, k: nat, n: nat)
    ensures SubN(c, k, n + 1) == Down(SubN(c, k / 2, n), k % 2 == 1)
  {
    hide Down;
  }

  /** The two positions one step below. */
  lemma SubNHalves(c: Cur, i: nat, n: nat)
    ensures SubN(c, 2 * i, n + 1) == Down(SubN(c, i, n), false)
    ensures SubN(c, 2 * i + 1, n + 1) == Down(SubN(c, i, n), true)
  {
    hide SubN, Down;
    EvenOdd(i);
    SubNLast(c, 2 * i, n);
    SubNLast(c, 2 * i + 1, n);
  }

  /** Walking n bits of i and then m bits of j is walking the n + m bits of i * 2^m + j. */
  lemma {:induction false} SubNCompose(c: Cur, i: nat, n: nat, j: nat, m: nat)
    requires j < Pow2(m)
    ensures SubN(SubN(c, i, n), j, m) == SubN(c, i * Pow2(m) + j, n + m)
  {
    if m > 0 {
      Doubling(m - 1);
      SubNCompose(c, i, n, j / 2, m - 1);
      hide Pow2;
      ComposeHalf(i, Pow2(m - 1), j);
    } else {
      Pow2Zero();
    }
  }

  lemma {:induction false} SubNLeaf(c: Cur, i: nat, n: nat)
    requires IsLeaf(c)
    ensures SubN(c, i, n) == c
  {
    if n > 0 { SubNLeaf(c, i / 2, n - 1); }
  }

  lemma {:induction false} SubNTall(c: Cur, i: nat, n: nat)
    ensures Tall(SubN(c, i, n)) <= if Tall(c) >= n then Tall(c) - n else 0
  {
    if n > 0 { SubNTall(c, i / 2, n - 1); }
  }

  lemma LeafIsTall0(c: Cur)
    ensures IsLeaf(c) <==> Tall(c) == 0
  {}

  // ----- positions below which every address has the same next hop

  predicate Uniform(r: Rib, e: u16, v: u16) {
    if r.Nil? then e == v else Uniform(r.left, Ext(r, e), v) && Uniform(r.right, Ext(r, e), v)
  }

  predicate Const(c: Cur, v: u16) {
    Uniform(c.left, c.ext, v) && Uniform(c.right, c.ext, v)
  }

  lemma ConstSplit(c: Cur, v: u16)
    ensures Const(c, v) <==> Const(Down(c, false), v) && Const(Down(c, true), v)
  {}

  lemma {:induction false} ConstDown(c: Cur, v: u16, i: nat, n: nat)
    requires Const(c, v)
    ensures Const(SubN(c, i, n), v)
  {
    if n > 0 {
      ConstDown(c, v, i / 2, n - 1);
      ConstSplit(SubN(c, i / 2, n - 1), v);
    }
  }

  /** A position is uniform when all positions n levels below it are. */
  lemma {:induction false} ConstUp(c: Cur, v: u16, n: nat)
    requires forall i :: 0 <= i < Pow2(n) ==> Const(SubN(c, i, n), v)
    ensures Const(c, v)
  {
    if n == 0 {
      assert Const(SubN(c, 0, 0), v);
    } else {
      var n1 := n - 1;
      forall i | 0 <= i < Pow2(n1) ensures Const(SubN(c, i, n1), v) {
        assert Const(SubN(c, 2 * i, n), v) && Const(SubN(c, 2 * i + 1, n), v);
        ConstSplit(SubN(c, i, n - 1), v);
      }
      ConstUp(c, v, n - 1);
    }
  }

  lemma {:induction false} UniformUnique(r: Rib, e: u16, v: u16, w: u16)
    requires Uniform(r, e, v) && Uniform(r, e, w)
    ensures v == w
  {
    if r.Node? { UniformUnique(r.left, Ext(r, e), v, w); }
  }

  lemma ConstLeaf(c: Cur, v: u16)
    requires IsLeaf(c)
    ensures Const(c, v) <==> c.ext == v
  {}

  // ----- the longest-prefix-match table

  /** The len leading bits of an address, as a number. */
  datatype Prefix = Prefix(bits: nat, len: nat)

  function Key(addr: nat, len: nat): Prefix
    requires len <= 32
  {
    Prefix(Shr(addr, 32 - len), len)
  }

  /** RFC 4632 section 5.1: of the table's prefixes of addr with at most m bits, the longest. */
  function Best<H>(table: map<Prefix, H>, addr: nat, m: nat): Option<H>
    requires m <= 32
  {
    if Key(addr, m) in table then Some(table[Key(addr, m)])
    else if m == 0 then None else Best(table, addr, m - 1)
  }

  /** The subtree at the end of the n low bits of i. */
  function At(r: Rib, i: nat, n: nat): Rib {
    if n == 0 then r else Child(At(r, i / 2, n - 1), i % 2 == 1)
  }

  lemma {:induction false} AtHead(r: Rib, i: nat, n: nat)
    ensures At(r, i, n + 1) == At(Child(r, Bit(i, n)), i, n)
  {
    if n > 0 { AtHead(r, i / 2, n - 1); }
  }

  function RouteOf(r: Rib): Option<u16> {
    if r.Nil? then None else r.route
  }

  /** The table holds exactly the routes of the tree. */
  ghost predicate Holds(r: Rib, table: map<Prefix, u16>) {
    && (forall k :: k in table ==> k.len <= 32 && k.bits < Pow2(k.len))
    && (forall i, m | 0 <= m <= 32 && 0 <= i < Pow2(m) ::
          RouteOf(At(r, i, m)) == if Prefix(i, m) in table then Some(table[Prefix(i, m)]) else None)
  }

  /** The next hop of an address, read off the tree: walk all 32 bits. */
  function Val(c: Cur, addr: nat): u16 {
    SubN(c, addr, 32).ext
  }

  lemma {:induction false} SubNAt(r: Rib, e: u16, i: nat, n: nat)
    ensures var c := SubN(Enter(r, e), i, n);
            c.left == Child(At(r, i, n), false) && c.right == Child(At(r, i, n), true)
  {
    if n > 0 { SubNAt(r, e, i / 2, n - 1); }
  }

  lemma {:induction false} ShrStep(a: nat, k: nat)
    ensures Shr(a, k + 1) == Shr(a, k) / 2
    ensures Bit(a, k) == (Shr(a, k) % 2 == 1)
  {
    if k > 0 { ShrStep(a / 2, k - 1); }
  }

  lemma {:induction false} ShrBound(a: nat, k: nat, w: nat)
    requires a < Pow2(w) && k <= w
    ensures Shr(a, k) < Pow2(w - k)
  {
    if k > 0 { ShrBound(a / 2, k - 1, w - 1); }
  }

  lemma {:induction false} BitOfShr(a: nat, k: nat, i: nat)
    ensures Bit(Shr(a, k), i) == Bit(a, k + i)
  {
    if k > 0 { BitOfShr(a / 2, k - 1, i); }
  }

  /** The radix tree answers with the longest matching prefix. */
  lemma {:induction false} ValIsBest(r: Rib, table: map<Prefix, u16>, addr: u32, m: nat)
    requires Holds(r, table) && m <= 32
    ensures SubN(Enter(r, 0), Shr(addr, 32 - m), m).ext ==
            match Best(table, addr, m) case Some(v) => v case None => 0
  {
    hide Pow2, Bit;
    Pow2At64();
    var i := Shr(addr, 32 - m);
    ShrBound(addr, 32 - m, 32);
    assert RouteOf(At(r, i, m)) == if Prefix(i, m) in table then Some(table[Prefix(i, m)]) else None;
    if m > 0 {
      ValIsBest(r, table, addr, m - 1);
      ShrStep(addr, 32 - m);
      SubNAt(r, 0, i / 2, m - 1);
      var c := SubN(Enter(r, 0), i / 2, m - 1);
      var b := i % 2 == 1;
      assert At(r, i, m) == (if b then c.right else c.left);
    }
  }

  lemma ValIsLpm(r: Rib, table: map<Prefix, u16>, addr: u32)
    requires Holds(r, table)
    ensures Val(Enter(r, 0), addr) == match Best(table, addr, 32) case Some(v) => v case None => 0
  {
    ValIsBest(r, table, addr, 32);
  }

  // ----- updates

  /** Adding marks the more specific node at which propagation stops; changing and deleting do not. */
  datatype Mode = Adding | Changing

  /** The marks left below an updated node: all nodes that now inherit another route. */
  function Spread(mode: Mode, r: Rib): Rib {
    if r.Nil? then Nil
    else if r.route.Some? then (if mode == Adding then r.(mark := true) else r)
    else Node(None, true, Spread(mode, r.left), Spread(mode, r.right))
  }

  /** The tree after the route at the n-bit path i became `route`; missing nodes are created. */
  function Put(mode: Mode, r: Rib, i: nat, n: nat, route: Option<u16>): Rib {
    var q := if r.Nil? then Node(None, false, Nil, Nil) else r;
    if n == 0 then Node(route, true, Spread(mode, q.left), Spread(mode, q.right))
    else if Bit(i, n - 1) then q.(right := Put(mode, q.right, i, n - 1, route))
    else q.(left := Put(mode, q.left, i, n - 1, route))
  }

  function Unmark(r: Rib): Rib {
    if r.Nil? then Nil else Node(r.route, false, Unmark(r.left), Unmark(r.right))
  }

  predicate Unmarked(r: Rib) {
    r.Nil? || (!r.mark && Unmarked(r.left) && Unmarked(r.right))
  }

  /** Marks form a tree of their own: nothing below an unmarked node is marked. */
  predicate Rooted(r: Rib) {
    r.Nil? || (if r.mark then Rooted(r.left) && Rooted(r.right) else Unmarked(r))
  }

  lemma {:induction false} UnmarkedIsRooted(r: Rib)
    requires Unmarked(r)
    ensures Rooted(r)
  {}

  lemma {:induction false} SpreadRooted(mode: Mode, r: Rib)
    requires Unmarked(r)
    ensures Rooted(Spread(mode, r))
  {
    if r.Node? {
      if r.route.Some? {
        UnmarkedIsRooted(r.left);
        UnmarkedIsRooted(r.right);
      } else {
        SpreadRooted(mode, r.left);
        SpreadRooted(mode, r.right);
      }
    }
  }

  lemma UnmarkIdentity(r: Rib)
    ensures Unmarked(Unmark(r))
    ensures Unmarked(r) ==> Unmark(r) == r
  {}

  lemma UnmarkSpread(mode: Mode, r: Rib)
    ensures Unmark(Spread(mode, r)) == Unmark(r)
  {}

  lemma {:induction false} UnmarkAt(r: Rib, i: nat, n: nat)
    ensures At(Unmark(r), i, n) == Unmark(At(r, i, n))
  {
    if n > 0 { UnmarkAt(r, i / 2, n - 1); }
  }

  lemma {:induction false} SpreadRoutes(mode: Mode, r: Rib, j: nat, m: nat)
    ensures RouteOf(At(Spread(mode, r), j, m)) == RouteOf(At(r, j, m))
  {
    UnmarkSpread(mode, r);
    UnmarkAt(Spread(mode, r), j, m);
    UnmarkAt(r, j, m);
  }

  lemma {:induction false} AtNil(i: nat, n: nat)
    ensures At(Nil, i, n) == Nil
  {
    if n > 0 { AtNil(i / 2, n - 1); }
  }

  predicate SameLow(i: nat, j: nat, n: nat) {
    forall k :: 0 <= k < n ==> Bit(i, k) == Bit(j, k)
  }

  /** An update changes the route at its own path and nowhere else. */
  lemma {:induction false} PutRoutes(mode: Mode, r: Rib, i: nat, n: nat, route: Option<u16>, j: nat, m: nat)
    ensures RouteOf(At(Put(mode, r, i, n, route), j, m)) ==
            if n == m && SameLow(i, j, n) then route else RouteOf(At(r, j, m))
  {
    var q := if r.Nil? then Node(None, false, Nil, Nil) else r;
    if m > 0 {
      AtHead(Put(mode, r, i, n, route), j, m - 1);
      AtHead(r, j, m - 1);
      AtNil(j, m - 1);
      assert Child(r, Bit(j, m - 1)) == Child(q, Bit(j, m - 1));
      if n == 0 {
        SpreadRoutes(mode, Child(q, Bit(j, m - 1)), j, m - 1);
      } else if Bit(i, n - 1) == Bit(j, m - 1) {
        PutRoutes(mode, Child(q, Bit(j, m - 1)), i, n - 1, route, j, m - 1);
      } else if n == m {
        assert !SameLow(i, j, n);
      }
    }
  }

  /** The table after the update. */
  function PutTable<H>(table: map<Prefix, H>, k: Prefix, route: Option<H>): map<Prefix, H> {
    if route.Some? then table[k := route.value] else table - {k}
  }

  lemma PutHolds(mode: Mode, r: Rib, table: map<Prefix, u16>, i: nat, n: nat, route: Option<u16>)
    requires Holds(r, table) && n <= 32 && i < Pow2(n)
    ensures Holds(Unmark(Put(mode, r, i, n, route)), PutTable(table, Prefix(i, n), route))
  {
    var r', t' := Unmark(Put(mode, r, i, n, route)), PutTable(table, Prefix(i, n), route);
    forall j, m | 0 <= m <= 32 && 0 <= j < Pow2(m)
      ensures RouteOf(At(r', j, m)) == if Prefix(j, m) in t' then Some(t'[Prefix(j, m)]) else None
    {
      UnmarkAt(Put(mode, r, i, n, route), j, m);
      PutRoutes(mode, r, i, n, route, j, m);
      if n == m && SameLow(i, j, n) { SameDigits(i, j, n); }
    }
  }

  lemma {:induction false} PutHeight(mode: Mode, r: Rib, i: nat, n: nat, route: Option<u16>)
    ensures Height(Put(mode, r, i, n, route)) <= Max(Height(r), n + 1)
  {
    var q := if r.Nil? then Node(None, false, Nil, Nil) else r;
    if n == 0 {
      SpreadHeight(mode, q.left);
      SpreadHeight(mode, q.right);
    } else if Bit(i, n - 1) {
      PutHeight(mode, q.right, i, n - 1, route);
    } else {
      PutHeight(mode, q.left, i, n - 1, route);
    }
  }

  lemma SpreadHeight(mode: Mode, r: Rib)
    ensures Height(Spread(mode, r)) == Height(r)
  {}

  lemma UnmarkHeight(r: Rib)
    ensures Height(Unmark(r)) == Height(r)
  {}

  // ----- what every update keeps

  /** Every node of r0 is still there in r1. */
  predicate Extends(r0: Rib, r1: Rib) {
    r0.Nil? || (r1.Node? && Extends(r0.left, r1.left) && Extends(r0.right, r1.right))
  }

  lemma {:induction false} ExtendsSelf(r: Rib)
    ensures Extends(r, r)
  {
    if r.Node? {
      ExtendsSelf(r.left);
      ExtendsSelf(r.right);
    }
  }

  lemma {:induction false} ExtendsTransitive(r0: Rib, r1: Rib, r2: Rib)
    requires Extends(r0, r1) && Extends(r1, r2)
    ensures Extends(r0, r2)
  {
    if r0.Node? {
      ExtendsTransitive(r0.left, r1.left, r2.left);
      ExtendsTransitive(r0.right, r1.right, r2.right);
    }
  }

  lemma {:induction false} SpreadExtends(mode: Mode, r: Rib)
    ensures Extends(r, Spread(mode, r))
  {
    if r.Node? {
      ExtendsSelf(r.left);
      ExtendsSelf(r.right);
      SpreadExtends(mode, r.left);
      SpreadExtends(mode, r.right);
    }
  }

  lemma {:induction false} UnmarkExtends(r: Rib)
    ensures Extends(r, Unmark(r))
  {
    if r.Node? {
      UnmarkExtends(r.left);
      UnmarkExtends(r.right);
    }
  }

  /** No node is ever removed. */
  lemma {:induction false} PutExtends(mode: Mode, r: Rib, i: nat, n: nat, route: Option<u16>)
    ensures Extends(r, Put(mode, r, i, n, route))
    decreases n
  {
    if r.Node? {
      ExtendsSelf(r.left);
      ExtendsSelf(r.right);
      if n == 0 {
        SpreadExtends(mode, r.left);
        SpreadExtends(mode, r.right);
      } else if Bit(i, n - 1) {
        PutExtends(mode, r.right, i, n - 1, route);
      } else {
        PutExtends(mode, r.left, i, n - 1, route);
      }
    }
  }

  /** All next hops are below n. */
  predicate HopsBelow(r: Rib, n: nat) {
    r.Nil? || ((r.route.Some? ==> r.route.value < n) && HopsBelow(r.left, n) && HopsBelow(r.right, n))
  }

  lemma {:induction false} HopsBelowMore(r: Rib, m: nat, n: nat)
    requires HopsBelow(r, m) && m <= n
    ensures HopsBelow(r, n)
  {
    if r.Node? {
      HopsBelowMore(r.left, m, n);
      HopsBelowMore(r.right, m, n);
    }
  }

  lemma {:induction false} SpreadBelow(mode: Mode, r: Rib, n: nat)
    requires HopsBelow(r, n)
    ensures HopsBelow(Spread(mode, r), n)
  {
    if r.Node? {
      SpreadBelow(mode, r.left, n);
      SpreadBelow(mode, r.right, n);
    }
  }

  lemma {:induction false} UnmarkBelow(r: Rib, n: nat)
    requires HopsBelow(r, n)
    ensures HopsBelow(Unmark(r), n)
  {
    if r.Node? {
      UnmarkBelow(r.left, n);
      UnmarkBelow(r.right, n);
    }
  }

  lemma {:induction false} PutBelow(mode: Mode, r: Rib, i: nat, n: nat, route: Option<u16>, m: nat)
    requires HopsBelow(r, m) && (route.Some? ==> route.value < m)
    ensures HopsBelow(Put(mode, r, i, n, route), m)
    decreases n
  {
    var q := if r.Nil? then Node(None, false, Nil, Nil) else r;
    if n == 0 {
      SpreadBelow(mode, q.left, m);
      SpreadBelow(mode, q.right, m);
    } else if Bit(i, n - 1) {
      PutBelow(mode, q.right, i, n - 1, route, m);
    } else {
      PutBelow(mode, q.left, i, n - 1, route, m);
    }
  }
}
