/** The radix tree of poptrie.c as linked nodes: insertion, change and deletion of routes with
    the propagated-route cache `ext` and the update marks. */
module Radix {
  import opened Bits
  import opened Rib

  /** struct radix_node */
  class RadixNode {
    var valid: bool
    var left: RadixNode?
    var right: RadixNode?
    var len: nat
    var nexthop: u16
    var ext: RadixNode?
    var mark: bool

    constructor (ext: RadixNode?)
      ensures !valid && left == null && right == null && this.ext == ext && !mark
    {
      valid, left, right, this.ext, mark := false, null, null, ext, false;
      len, nexthop := 0, 0;
    }
  }

  /** The nodes of a linked tree, in place. */
  datatype Shape = Empty | Fork(o: RadixNode, l: Shape, r: Shape)

  function RootOf(sh: Shape): RadixNode? {
    if sh.Empty? then null else sh.o
  }

  ghost function Objs(sh: Shape): set<RadixNode> {
    if sh.Empty? then {} else {sh.o} + Objs(sh.l) + Objs(sh.r)
  }

  /** The links of the nodes form the tree sh. */
  ghost predicate Linked(sh: Shape)
    reads Objs(sh)
  {
    sh.Empty? ||
    (&& sh.o !in Objs(sh.l) && sh.o !in Objs(sh.r) && Objs(sh.l) !! Objs(sh.r)
     && sh.o.left == RootOf(sh.l) && sh.o.right == RootOf(sh.r)
     && Linked(sh.l) && Linked(sh.r))
  }

  /** The routes and marks of the linked tree. */
  ghost function View(sh: Shape): Rib
    reads Objs(sh)
  {
    if sh.Empty? then Nil
    else Node(if sh.o.valid then Some(sh.o.nexthop) else None, sh.o.mark, View(sh.l), View(sh.r))
  }

  /** The cache invariant: `ext` is the deepest valid node at or above each node, where anc is
      the deepest valid one above the tree. */
  ghost predicate Cached(sh: Shape, anc: RadixNode?)
    reads Objs(sh)
  {
    sh.Empty? ||
    (&& sh.o.ext == (if sh.o.valid then sh.o else anc)
     && Cached(sh.l, sh.o.ext) && Cached(sh.r, sh.o.ext))
  }

  /** Valid nodes record their depth. */
  ghost predicate Lens(sh: Shape, d: nat)
    reads Objs(sh)
  {
    sh.Empty? || ((sh.o.valid ==> sh.o.len == d) && Lens(sh.l, d + 1) && Lens(sh.r, d + 1))
  }

  /** EXT_NH */
  function Nh(n: RadixNode?): u16
    reads n
  {
    if n == null then 0 else n.nexthop
  }

  /** The nodes of a tree at hand are allocated. */
  lemma {:induction false} Allocated(sh: Shape)
    ensures forall o :: o in Objs(sh) ==> allocated(o)
  {
    if sh.Fork? {
      Allocated(sh.l);
      Allocated(sh.r);
    }
  }

  /** sh is a well-formed linked tree that holds r; its root is at depth d below the valid node anc. */
  ghost predicate Shows(sh: Shape, anc: RadixNode?, d: nat, r: Rib)
    reads Objs(sh)
  {
    Linked(sh) && Cached(sh, anc) && Lens(sh, d) && View(sh) == r
  }

  ghost predicate Forked(sh: Shape)
    requires sh.Fork?
    reads Objs(sh)
  {
    && sh.o !in Objs(sh.l) && sh.o !in Objs(sh.r) && Objs(sh.l) !! Objs(sh.r)
    && sh.o.left == RootOf(sh.l) && sh.o.right == RootOf(sh.r)
  }

  /** The root of sh and the subtrees below it, whatever the root's own fields hold. */
  ghost predicate Joint(sh: Shape, e: RadixNode?, d: nat, l: Rib, r: Rib)
    requires sh.Fork?
    reads Objs(sh)
  {
    Forked(sh) && Shows(sh.l, e, d + 1, l) && Shows(sh.r, e, d + 1, r)
  }

  function RouteIn(o: RadixNode): Option<u16>
    reads o
  {
    if o.valid then Some(o.nexthop) else None
  }

  lemma ShowsNode(sh: Shape, anc: RadixNode?, d: nat, m: bool, l: Rib, r: Rib)
    requires sh.Fork?
    ensures Shows(sh, anc, d, Node(RouteIn(sh.o), m, l, r)) <==>
      && Joint(sh, sh.o.ext, d, l, r) && sh.o.mark == m
      && (sh.o.valid ==> sh.o.len == d) && sh.o.ext == (if sh.o.valid then sh.o else anc)
  {}

  /** What a node of a shown tree holds. */
  lemma ShowsParts(sh: Shape, anc: RadixNode?, d: nat, r: Rib)
    requires sh.Fork? && Shows(sh, anc, d, r)
    ensures r.Node? && r.route == RouteIn(sh.o) && r.mark == sh.o.mark
    ensures Joint(sh, sh.o.ext, d, r.left, r.right)
    ensures (sh.o.valid ==> sh.o.len == d) && sh.o.ext == (if sh.o.valid then sh.o else anc)
  {}

  lemma ShowsEmpty(anc: RadixNode?, d: nat, r: Rib)
    ensures Shows(Empty, anc, d, r) <==> r == Nil
  {}

  lemma ObjsParts(sh: Shape)
    requires sh.Fork?
    ensures Objs(sh) == {sh.o} + Objs(sh.l) + Objs(sh.r)
    ensures forall o :: o in Objs(sh) ==> allocated(o)
  {
    Allocated(sh);
  }

  // ----- propagation

  /** _route_add_propagate: hand the new route `ext` to the nodes that inherited a0. */
  method AddPropagate(node: RadixNode, ext: RadixNode, ghost sh: Shape, ghost a0: RadixNode?, ghost d: nat,
                      ghost l: Rib, ghost r: Rib)
    returns (mark: bool)
    requires sh.Fork? && sh.o == node && Joint(sh, node.ext, d, l, r)
    requires a0 !in Objs(sh) && (a0 != null ==> a0.len < ext.len)
    requires ext !in Objs(sh.l) && ext !in Objs(sh.r) && ext.len <= d
    requires node.ext == a0 || (node.ext == node && node != ext && node.len == d > ext.len)
    modifies Objs(sh)
    ensures mark && node.mark
    ensures node.valid == old(node.valid) && node.nexthop == old(node.nexthop) && node.len == old(node.len)
    ensures old(node.ext) != a0 ==> node.ext == node && Joint(sh, node, d, l, r)
    ensures old(node.ext) == a0 ==> node.ext == ext && Joint(sh, ext, d, Spread(Adding, l), Spread(Adding, r))
    decreases sh, 1
  {
    hide Objs, Shows, Spread;
    ObjsParts(sh);
    if node.ext != null {
      if ext.len > node.ext.len {
        node.mark := true;
        node.ext := ext;
      } else {
        node.mark := true;
        return true;
      }
    } else {
      node.mark := true;
      node.ext := ext;
    }
    AddPropagateBelow(node, ext, sh, a0, d, l, r);
    mark := node.mark;
  }

  /** The two recursive calls of _route_add_propagate. */
  method AddPropagateBelow(node: RadixNode, ext: RadixNode, ghost sh: Shape, ghost a0: RadixNode?, ghost d: nat,
                           ghost l: Rib, ghost r: Rib)
    requires sh.Fork? && sh.o == node && node.ext == ext && node.mark && Joint(sh, a0, d, l, r)
    requires a0 !in Objs(sh) && (a0 != null ==> a0.len < ext.len)
    requires ext !in Objs(sh.l) && ext !in Objs(sh.r) && ext.len <= d
    modifies Objs(sh)
    ensures Joint(sh, ext, d, Spread(Adding, l), Spread(Adding, r)) && node.mark && node.ext == ext
    ensures node.valid == old(node.valid) && node.nexthop == old(node.nexthop) && node.len == old(node.len)
    decreases sh, 0
  {
    hide Objs, Shows, Spread;
    ObjsParts(sh);
    var m := AddPropagateChild(node.left, ext, sh.l, a0, d + 1, l);
    node.mark := node.mark || m;
    m := AddPropagateChild(node.right, ext, sh.r, a0, d + 1, r);
    node.mark := node.mark || m;
  }

  method AddPropagateChild(child: RadixNode?, ext: RadixNode, ghost sh: Shape, ghost a0: RadixNode?, ghost d: nat,
                           ghost r: Rib)
    returns (mark: bool)
    requires child == RootOf(sh) && Shows(sh, a0, d, r)
    requires a0 !in Objs(sh) && (a0 != null ==> a0.len < ext.len)
    requires ext !in Objs(sh) && ext.len < d
    modifies Objs(sh)
    ensures Shows(sh, ext, d, Spread(Adding, r))
    decreases sh, 2
  {
    mark := false;
    if child != null {
      ShowsParts(sh, a0, d, r);
      hide Shows, Joint;
      mark := AddPropagate(child, ext, sh, a0, d, r.left, r.right);
      if r.route.Some? {
        ShowsNode(sh, ext, d, true, r.left, r.right);
      } else {
        ShowsNode(sh, ext, d, true, Spread(Adding, r.left), Spread(Adding, r.right));
      }
    }
  }

  /** _route_change_propagate: mark the nodes that inherit `ext`. */
  method ChangePropagate(node: RadixNode, ext: RadixNode, ghost sh: Shape, ghost d: nat, ghost l: Rib, ghost r: Rib)
    returns (mark: bool)
    requires sh.Fork? && sh.o == node && Joint(sh, node.ext, d, l, r) && !node.mark
    requires ext !in Objs(sh.l) && ext !in Objs(sh.r)
    requires Unmarked(l) && Unmarked(r)
    modifies Objs(sh)
    ensures mark == node.mark == (old(node.ext) == ext)
    ensures node.valid == old(node.valid) && node.nexthop == old(node.nexthop) && node.len == old(node.len)
    ensures node.ext == old(node.ext)
    ensures node.ext != ext ==> Joint(sh, node.ext, d, l, r)
    ensures node.ext == ext ==> Joint(sh, node.ext, d, Spread(Changing, l), Spread(Changing, r))
    decreases sh, 0
  {
    hide Objs, Shows, Spread, Unmarked;
    ObjsParts(sh);
    if ext == node.ext {
      node.mark := true;
    }
    var m := ChangePropagateChild(node.left, ext, sh.l, node.ext, d + 1, l);
    node.mark := node.mark || m;
    m := ChangePropagateChild(node.right, ext, sh.r, node.ext, d + 1, r);
    node.mark := node.mark || m;
    mark := node.mark;
  }

  method ChangePropagateChild(child: RadixNode?, ext: RadixNode, ghost sh: Shape, ghost a0: RadixNode?, ghost d: nat,
                              ghost r: Rib)
    returns (mark: bool)
    requires child == RootOf(sh) && Shows(sh, a0, d, r) && ext !in Objs(sh) && Unmarked(r)
    modifies Objs(sh)
    ensures mark ==> a0 == ext
    ensures Shows(sh, a0, d, if a0 == ext then Spread(Changing, r) else r)
    decreases sh, 1
  {
    mark := false;
    if child != null {
      ShowsParts(sh, a0, d, r);
      hide Shows, Joint;
      mark := ChangePropagate(child, ext, sh, d, r.left, r.right);
      if child.ext == ext {
        ShowsNode(sh, a0, d, true, Spread(Changing, r.left), Spread(Changing, r.right));
      } else {
        ShowsNode(sh, a0, d, false, r.left, r.right);
      }
    }
  }

  /** _route_del_propagate: nodes that inherit `oext` now inherit `next`. */
  method DelPropagate(node: RadixNode, oext: RadixNode, next: RadixNode?, ghost sh: Shape, ghost d: nat,
                      ghost l: Rib, ghost r: Rib)
    returns (mark: bool)
    requires sh.Fork? && sh.o == node && Joint(sh, node.ext, d, l, r) && !node.mark
    requires oext !in Objs(sh.l) && oext !in Objs(sh.r) && next !in Objs(sh) && next != oext
    requires Unmarked(l) && Unmarked(r)
    modifies Objs(sh)
    ensures mark == node.mark == (old(node.ext) == oext)
    ensures node.valid == old(node.valid) && node.nexthop == old(node.nexthop) && node.len == old(node.len)
    ensures old(node.ext) != oext ==> node.ext == old(node.ext) && Joint(sh, node.ext, d, l, r)
    ensures old(node.ext) == oext ==> node.ext == next && Joint(sh, next, d, Spread(Changing, l), Spread(Changing, r))
    decreases sh, 1
  {
    hide Objs, Shows, Spread, Unmarked;
    ObjsParts(sh);
    if oext == node.ext {
      // the source's inner test on the next hops only sets the mark that is set here anyway
      node.ext := next;
      node.mark := true;
      DelPropagateBelow(node, oext, next, sh, oext, d, l, r);
    } else {
      DelPropagateBelow(node, oext, next, sh, node.ext, d, l, r);
    }
    mark := node.mark;
  }

  /** The two recursive calls of _route_del_propagate. */
  method DelPropagateBelow(node: RadixNode, oext: RadixNode, next: RadixNode?,
                           ghost sh: Shape, ghost a0: RadixNode?, ghost d: nat, ghost l: Rib, ghost r: Rib)
    requires sh.Fork? && sh.o == node && Joint(sh, a0, d, l, r)
    requires node.mark == (a0 == oext)
    requires oext !in Objs(sh.l) && oext !in Objs(sh.r) && next !in Objs(sh) && next != oext
    requires Unmarked(l) && Unmarked(r)
    modifies Objs(sh)
    ensures node.mark == old(node.mark) && node.ext == old(node.ext)
    ensures node.valid == old(node.valid) && node.nexthop == old(node.nexthop) && node.len == old(node.len)
    ensures a0 != oext ==> Joint(sh, a0, d, l, r)
    ensures a0 == oext ==> Joint(sh, next, d, Spread(Changing, l), Spread(Changing, r))
    decreases sh, 0
  {
    hide Objs, Shows, Spread, Unmarked;
    ObjsParts(sh);
    var m := DelPropagateChild(node.left, oext, next, sh.l, a0, d + 1, l);
    node.mark := node.mark || m;
    m := DelPropagateChild(node.right, oext, next, sh.r, a0, d + 1, r);
    node.mark := node.mark || m;
  }

  method DelPropagateChild(child: RadixNode?, oext: RadixNode, next: RadixNode?,
                           ghost sh: Shape, ghost a0: RadixNode?, ghost d: nat, ghost r: Rib)
    returns (mark: bool)
    requires child == RootOf(sh) && Shows(sh, a0, d, r) && Unmarked(r)
    requires oext !in Objs(sh) && next !in Objs(sh) && next != oext
    modifies Objs(sh)
    ensures mark ==> a0 == oext
    ensures Shows(sh, if a0 == oext then next else a0, d, if a0 == oext then Spread(Changing, r) else r)
    decreases sh, 2
  {
    mark := false;
    if child != null {
      ShowsParts(sh, a0, d, r);
      ghost var e := child.ext;
      hide Shows, Joint;
      mark := DelPropagate(child, oext, next, sh, d, r.left, r.right);
      if e == oext {
        ShowsNode(sh, next, d, true, Spread(Changing, r.left), Spread(Changing, r.right));
      } else {
        ShowsNode(sh, if a0 == oext then next else a0, d, false, r.left, r.right);
      }
    }
  }

  /** _clear_mark */
  method ClearMark(node: RadixNode, ghost sh: Shape, ghost anc: RadixNode?, ghost d: nat, ghost r: Rib)
    requires sh.Fork? && sh.o == node && Shows(sh, anc, d, r) && Rooted(r)
    modifies Objs(sh)
    ensures Shows(sh, anc, d, Unmark(r))
    decreases sh, 0
  {
    UnmarkIdentity(r);
    ShowsParts(sh, anc, d, r);
    if !node.mark {
      return;
    }
    hide Objs, Shows;
    ObjsParts(sh);
    node.mark := false;
    ghost var e := node.ext;
    ClearMarkChild(node.left, sh.l, e, d + 1, r.left);
    ClearMarkChild(node.right, sh.r, e, d + 1, r.right);
    ShowsNode(sh, anc, d, false, Unmark(r.left), Unmark(r.right));
  }

  method ClearMarkChild(child: RadixNode?, ghost sh: Shape, ghost anc: RadixNode?, ghost d: nat, ghost r: Rib)
    requires child == RootOf(sh) && Shows(sh, anc, d, r) && Rooted(r)
    modifies Objs(sh)
    ensures Shows(sh, anc, d, Unmark(r))
    decreases sh, 1
  {
    if child != null {
      ClearMark(child, sh, anc, d, r);
    }
  }

  // ----- route operations on the tree

  /** (prefix >> (32 - depth - 1)) & 1 */
  predicate BitAt(prefix: u32, depth: nat)
    requires depth < 32
  {
    Shr(prefix, 31 - depth) % 2 == 1
  }

  /** The len leading bits of the prefix, as a path. */
  function Path(prefix: u32, len: nat): nat
    requires len <= 32
  {
    Shr(prefix, 32 - len)
  }

  lemma PathBound(prefix: u32, len: nat)
    requires len <= 32
    ensures Path(prefix, len) < Pow2(len)
  {
    hide Pow2, Shr;
    Pow2At64();
    ShrBound(prefix, 32 - len, 32);
  }

  lemma PathBit(prefix: u32, len: nat, depth: nat)
    requires depth < len <= 32
    ensures BitAt(prefix, depth) == Bit(Path(prefix, len), len - depth - 1)
  {
    BitOfShr(prefix, 32 - len, len - depth - 1);
    ShrStep(prefix, 31 - depth);
  }

  function Here(r: Rib): Rib {
    if r.Nil? then Node(None, false, Nil, Nil) else r
  }

  /** The route at the n-bit path i. */
  function RouteAt(r: Rib, i: nat, n: nat): Option<u16> {
    if r.Nil? then None else if n == 0 then r.route
    else RouteAt(Child(r, Bit(i, n - 1)), i, n - 1)
  }

  lemma {:induction false} RouteAtIsAt(r: Rib, i: nat, n: nat)
    ensures RouteAt(r, i, n) == RouteOf(At(r, i, n))
  {
    if n > 0 {
      AtHead(r, i, n - 1);
      if r.Nil? { AtNil(i, n); } else { RouteAtIsAt(Child(r, Bit(i, n - 1)), i, n - 1); }
    }
  }

  /** The recursion of _route_add up to the update of the fast form: create the missing nodes on
      the path, refuse a route that exists, set the route and propagate it. */
  method AddRoute(node: RadixNode?, prefix: u32, len: nat, nexthop: u16, depth: nat, ext: RadixNode?,
                  ghost sh: Shape, ghost r: Rib)
    returns (ok: bool, node': RadixNode, ghost sh': Shape)
    requires node == RootOf(sh) && Shows(sh, ext, depth, r) && Unmarked(r)
    requires depth <= len <= 32 && ext !in Objs(sh) && (ext != null ==> ext.len < depth)
    modifies Objs(sh)
    ensures node' == RootOf(sh') && Objs(sh) <= Objs(sh') && (forall o :: o in Objs(sh') && o !in Objs(sh) ==> fresh(o))
    ensures ok <==> RouteAt(r, Path(prefix, len), len - depth).None?
    ensures ok ==> Shows(sh', ext, depth, Put(Adding, r, Path(prefix, len), len - depth, Some(nexthop)))
    ensures !ok ==> sh' == sh && Shows(sh, ext, depth, r)
    decreases len - depth, 1
  {
    if node == null {
      node' := new RadixNode(ext);
      var s := Fork(node', Empty, Empty);
      ShowsEmpty(ext, depth, r);
      ShowsEmpty(ext, depth + 1, Nil);
      ShowsNode(s, ext, depth, false, Nil, Nil);
      ObjsParts(s);
      assert Objs(s) == {node'};
      hide Shows;
      ok, sh' := AddInto(node', prefix, len, nexthop, depth, ext, s, Here(r));
      assert sh.Empty? && Objs(sh) == {};
    } else {
      node' := node;
      ShowsParts(sh, ext, depth, r);
      hide Shows;
      ok, sh' := AddInto(node', prefix, len, nexthop, depth, ext, sh, r);
    }
  }

  method AddInto(node: RadixNode, prefix: u32, len: nat, nexthop: u16, depth: nat, ext: RadixNode?,
                 ghost sh: Shape, ghost r: Rib)
    returns (ok: bool, ghost sh': Shape)
    requires sh.Fork? && node == sh.o && Shows(sh, ext, depth, r) && Unmarked(r) && r.Node?
    requires depth <= len <= 32 && ext !in Objs(sh) && (ext != null ==> ext.len < depth)
    modifies Objs(sh)
    ensures sh'.Fork? && node == sh'.o && Objs(sh) <= Objs(sh')
    ensures (forall o :: o in Objs(sh') && o !in Objs(sh) ==> fresh(o))
    ensures ok <==> RouteAt(r, Path(prefix, len), len - depth).None?
    ensures ok ==> Shows(sh', ext, depth, Put(Adding, r, Path(prefix, len), len - depth, Some(nexthop)))
    ensures !ok ==> sh' == sh && Shows(sh, ext, depth, r)
    decreases len - depth, 0
  {
    hide Shows, Objs;
    ShowsParts(sh, ext, depth, r);
    ObjsParts(sh);
    if len == depth {
      ok, sh' := !node.valid, sh;
      if ok { AddHere(node, nexthop, depth, ext, sh, r); }
    } else {
      var e := if node.valid then node else ext;
      ghost var i := Path(prefix, len);
      PathBit(prefix, len, depth);
      var c;
      ghost var s;
      if BitAt(prefix, depth) {
        ok, c, s := AddRoute(node.right, prefix, len, nexthop, depth + 1, e, sh.r, r.right);
        sh' := Relink(node, true, c, sh, s, ext, depth, r, if ok then Put(Adding, r.right, i, len - depth - 1,
            Some(nexthop)) else r.right);
      } else {
        ok, c, s := AddRoute(node.left, prefix, len, nexthop, depth + 1, e, sh.l, r.left);
        sh' := Relink(node, false, c, sh, s, ext, depth, r, if ok then Put(Adding, r.left, i, len - depth - 1,
            Some(nexthop)) else r.left);
      }
    }
  }

  /** The matched node of _route_add. */
  method AddHere(node: RadixNode, nexthop: u16, depth: nat, ext: RadixNode?, ghost sh: Shape, ghost r: Rib)
    requires sh.Fork? && node == sh.o && Shows(sh, ext, depth, r) && r.Node? && !node.valid
    requires ext !in Objs(sh) && (ext != null ==> ext.len < depth)
    modifies Objs(sh)
    ensures Shows(sh, ext, depth, Node(Some(nexthop), true, Spread(Adding, r.left), Spread(Adding, r.right)))
  {
    hide Shows, Objs, Spread;
    ShowsParts(sh, ext, depth, r);
    ObjsParts(sh);
    node.valid := true;
    node.nexthop := nexthop;
    node.len := depth;
    var m := AddPropagate(node, node, sh, ext, depth, r.left, r.right);
    node.mark := m;
    ShowsNode(sh, ext, depth, true, Spread(Adding, r.left), Spread(Adding, r.right));
  }

  /** A path node after the recursive call on one of its sides. */
  method Relink(node: RadixNode, b: bool, c: RadixNode, ghost sh: Shape, ghost s: Shape,
                ghost ext: RadixNode?, ghost depth: nat, ghost r: Rib, ghost x: Rib)
    returns (ghost sh': Shape)
    requires sh.Fork? && node == sh.o && r.Node? && !r.mark && !node.mark && RouteIn(node) == r.route
    requires node.valid ==> node.len == depth
    requires node.ext == if node.valid then node else ext
    requires c == RootOf(s) && Shows(s, node.ext, depth + 1, x) && node !in Objs(s)
    requires b ==> Shows(sh.l, node.ext, depth + 1, r.left) && node.left == RootOf(sh.l)
                   && node !in Objs(sh.l) && Objs(sh.l) !! Objs(s)
    requires !b ==> Shows(sh.r, node.ext, depth + 1, r.right) && node.right == RootOf(sh.r)
                    && node !in Objs(sh.r) && Objs(sh.r) !! Objs(s)
    modifies node
    ensures sh' == if b then Fork(node, sh.l, s) else Fork(node, s, sh.r)
    ensures Shows(sh', ext, depth, if b then r.(right := x) else r.(left := x))
    ensures Objs(sh') == {node} + Objs(s) + (if b then Objs(sh.l) else Objs(sh.r))
  {
    hide Shows, Objs;
    Allocated(s);
    Allocated(sh);
    ObjsParts(sh);
    if b {
      node.right := c;
      sh' := Fork(node, sh.l, s);
      ObjsParts(sh');
      ShowsNode(sh', ext, depth, false, r.left, x);
    } else {
      node.left := c;
      sh' := Fork(node, s, sh.r);
      ObjsParts(sh');
      ShowsNode(sh', ext, depth, false, x, r.right);
    }
  }

  /** The recursion of _route_change up to the update of the fast form: refuse an absent route,
      replace a different next hop in place. */
  method ChangeRoute(node: RadixNode?, prefix: u32, len: nat, nexthop: u16, depth: nat, ghost ext: RadixNode?,
                     ghost sh: Shape, ghost r: Rib)
    returns (found: bool, changed: bool)
    requires node == RootOf(sh) && Shows(sh, ext, depth, r) && Unmarked(r)
    requires depth <= len <= 32
    modifies Objs(sh)
    ensures found <==> RouteAt(r, Path(prefix, len), len - depth).Some?
    ensures changed <==> found && RouteAt(r, Path(prefix, len), len - depth) != Some(nexthop)
    ensures Shows(sh, ext, depth,
                  if changed then Put(Changing, r, Path(prefix, len), len - depth, Some(nexthop)) else r)
    decreases len - depth
  {
    found, changed := false, false;
    if node == null {
      ShowsEmpty(ext, depth, r);
      return;
    }
    hide Shows, Objs;
    ShowsParts(sh, ext, depth, r);
    ObjsParts(sh);
    if len == depth {
      found := node.valid;
      if found && node.nexthop != nexthop {
        changed := true;
        ChangeHere(node, nexthop, depth, ext, sh, r);
      }
    } else {
      ghost var e := node.ext;
      ghost var i := Path(prefix, len);
      PathBit(prefix, len, depth);
      if BitAt(prefix, depth) {
        found, changed := ChangeRoute(node.right, prefix, len, nexthop, depth + 1, e, sh.r, r.right);
        ShowsNode(sh, ext, depth, false, r.left,
                  if changed then Put(Changing, r.right, i, len - depth - 1, Some(nexthop)) else r.right);
      } else {
        found, changed := ChangeRoute(node.left, prefix, len, nexthop, depth + 1, e, sh.l, r.left);
        ShowsNode(sh, ext, depth, false,
                  if changed then Put(Changing, r.left, i, len - depth - 1, Some(nexthop)) else r.left, r.right);
      }
    }
  }

  /** The matched node of _route_change. */
  method ChangeHere(node: RadixNode, nexthop: u16, depth: nat, ghost ext: RadixNode?, ghost sh: Shape, ghost r: Rib)
    requires sh.Fork? && node == sh.o && Shows(sh, ext, depth, r) && r.Node? && node.valid && Unmarked(r)
    modifies Objs(sh)
    ensures Shows(sh, ext, depth, Node(Some(nexthop), true, Spread(Changing, r.left), Spread(Changing, r.right)))
  {
    hide Shows, Objs, Spread;
    ShowsParts(sh, ext, depth, r);
    ObjsParts(sh);
    node.nexthop := nexthop;
    var m := ChangePropagate(node, node, sh, depth, r.left, r.right);
    node.mark := m;
    ShowsNode(sh, ext, depth, true, Spread(Changing, r.left), Spread(Changing, r.right));
  }

  /** The recursion of _route_update: add the route if absent, change it if different. */
  method UpdateRoute(node: RadixNode?, prefix: u32, len: nat, nexthop: u16, depth: nat, ext: RadixNode?,
                     ghost sh: Shape, ghost r: Rib)
    returns (changed: bool, node': RadixNode, ghost sh': Shape)
    requires node == RootOf(sh) && Shows(sh, ext, depth, r) && Unmarked(r)
    requires depth <= len <= 32 && ext !in Objs(sh) && (ext != null ==> ext.len < depth)
    modifies Objs(sh)
    ensures node' == RootOf(sh') && Objs(sh) <= Objs(sh') && (forall o :: o in Objs(sh') && o !in Objs(sh) ==> fresh(o))
    ensures changed <==> RouteAt(r, Path(prefix, len), len - depth) != Some(nexthop)
    ensures changed ==> Shows(sh', ext, depth,
      Put(if RouteAt(r, Path(prefix, len), len - depth).None? then Adding else Changing,
          r, Path(prefix, len), len - depth, Some(nexthop)))
    ensures !changed ==> sh' == sh && Shows(sh, ext, depth, r)
    decreases len - depth, 1
  {
    if node == null {
      node' := new RadixNode(ext);
      var s := Fork(node', Empty, Empty);
      ShowsEmpty(ext, depth, r);
      ShowsEmpty(ext, depth + 1, Nil);
      ShowsNode(s, ext, depth, false, Nil, Nil);
      ObjsParts(s);
      assert Objs(s) == {node'};
      hide Shows;
      changed, sh' := UpdateInto(node', prefix, len, nexthop, depth, ext, s, Here(r));
      assert sh.Empty? && Objs(sh) == {};
    } else {
      node' := node;
      ShowsParts(sh, ext, depth, r);
      hide Shows;
      changed, sh' := UpdateInto(node', prefix, len, nexthop, depth, ext, sh, r);
    }
  }

  method UpdateInto(node: RadixNode, prefix: u32, len: nat, nexthop: u16, depth: nat, ext: RadixNode?,
                    ghost sh: Shape, ghost r: Rib)
    returns (changed: bool, ghost sh': Shape)
    requires sh.Fork? && node == sh.o && Shows(sh, ext, depth, r) && Unmarked(r) && r.Node?
    requires depth <= len <= 32 && ext !in Objs(sh) && (ext != null ==> ext.len < depth)
    modifies Objs(sh)
    ensures sh'.Fork? && node == sh'.o && Objs(sh) <= Objs(sh')
    ensures (forall o :: o in Objs(sh') && o !in Objs(sh) ==> fresh(o))
    ensures changed <==> RouteAt(r, Path(prefix, len), len - depth) != Some(nexthop)
    ensures changed ==> Shows(sh', ext, depth,
      Put(if RouteAt(r, Path(prefix, len), len - depth).None? then Adding else Changing,
          r, Path(prefix, len), len - depth, Some(nexthop)))
    ensures !changed ==> sh' == sh && Shows(sh, ext, depth, r)
    decreases len - depth, 0
  {
    hide Shows, Objs;
    ShowsParts(sh, ext, depth, r);
    ObjsParts(sh);
    if len == depth {
      changed, sh' := !node.valid || node.nexthop != nexthop, sh;
      if node.valid {
        if changed { ChangeHere(node, nexthop, depth, ext, sh, r); }
      } else {
        AddHere(node, nexthop, depth, ext, sh, r);
      }
    } else {
      var e := if node.valid then node else ext;
      ghost var i := Path(prefix, len);
      PathBit(prefix, len, depth);
      ghost var old_route := RouteAt(r, i, len - depth);
      ghost var mode := if old_route.None? then Adding else Changing;
      var c;
      ghost var s;
      if BitAt(prefix, depth) {
        changed, c, s := UpdateRoute(node.right, prefix, len, nexthop, depth + 1, e, sh.r, r.right);
        sh' := Relink(node, true, c, sh, s, ext, depth, r,
                      if changed then Put(mode, r.right, i, len - depth - 1, Some(nexthop)) else r.right);
      } else {
        changed, c, s := UpdateRoute(node.left, prefix, len, nexthop, depth + 1, e, sh.l, r.left);
        sh' := Relink(node, false, c, sh, s, ext, depth, r,
                      if changed then Put(mode, r.left, i, len - depth - 1, Some(nexthop)) else r.left);
      }
    }
  }

  /** The recursion of _route_del up to the update of the fast form: refuse an absent route, hand
      its nodes to the next less specific route, invalidate it. */
  method DelRoute(node: RadixNode?, prefix: u32, len: nat, depth: nat, ext: RadixNode?, ghost sh: Shape, ghost r: Rib)
    returns (found: bool)
    requires node == RootOf(sh) && Shows(sh, ext, depth, r) && Unmarked(r)
    requires depth <= len <= 32 && ext !in Objs(sh)
    modifies Objs(sh)
    ensures found <==> RouteAt(r, Path(prefix, len), len - depth).Some?
    ensures Shows(sh, ext, depth, if found then Put(Changing, r, Path(prefix, len), len - depth, None) else r)
    decreases len - depth
  {
    found := false;
    if node == null {
      ShowsEmpty(ext, depth, r);
      return;
    }
    hide Shows, Objs;
    ShowsParts(sh, ext, depth, r);
    ObjsParts(sh);
    if len == depth {
      if !node.valid { return; }
      found := true;
      DelHere(node, depth, ext, sh, r);
    } else {
      var e := if node.valid then node else ext;
      ghost var i := Path(prefix, len);
      PathBit(prefix, len, depth);
      if BitAt(prefix, depth) {
        found := DelRoute(node.right, prefix, len, depth + 1, e, sh.r, r.right);
        ShowsNode(sh, ext, depth, false, r.left,
                  if found then Put(Changing, r.right, i, len - depth - 1, None) else r.right);
      } else {
        found := DelRoute(node.left, prefix, len, depth + 1, e, sh.l, r.left);
        ShowsNode(sh, ext, depth, false,
                  if found then Put(Changing, r.left, i, len - depth - 1, None) else r.left, r.right);
      }
      if found {
        // the source would free a node without children here; the deleted route is below it
        StillForked(r, i, len - depth);
        assert node.left != null || node.right != null;
      }
    }
  }

  /** A node above an existing route has a child. */
  lemma StillForked(r: Rib, i: nat, n: nat)
    requires n > 0 && RouteAt(r, i, n).Some?
    ensures r.left.Node? || r.right.Node?
  {}

  /** The matched node of _route_del. */
  method DelHere(node: RadixNode, depth: nat, ext: RadixNode?, ghost sh: Shape, ghost r: Rib)
    requires sh.Fork? && node == sh.o && Shows(sh, ext, depth, r) && r.Node? && node.valid && Unmarked(r)
    requires ext !in Objs(sh)
    modifies Objs(sh)
    ensures Shows(sh, ext, depth, Node(None, true, Spread(Changing, r.left), Spread(Changing, r.right)))
  {
    hide Shows, Objs, Spread;
    ShowsParts(sh, ext, depth, r);
    ObjsParts(sh);
    var m := DelPropagate(node, node, ext, sh, depth, r.left, r.right);
    node.mark := m;
    node.valid := false;
    node.nexthop := 0;
    ShowsNode(sh, ext, depth, true, Spread(Changing, r.left), Spread(Changing, r.right));
  }

  // ----- lookup in the tree

  /** _rib_lookup: walk the address bits, remembering the last valid node.  A node at depth 32
      has no children. */
  function RibLookup(node: RadixNode?, addr: u32, depth: nat, en: RadixNode?, ghost sh: Shape): (v: u16)
    requires node == RootOf(sh) && Linked(sh) && depth <= 32
    reads Objs(sh), en
    decreases sh
  {
    if node == null then 0
    else
      var e := if node.valid then node else en;
      if depth < 32 && BitAt(addr, depth) then
        (if node.right == null then Nh(e) else RibLookup(node.right, addr, depth + 1, e, sh.r))
      else
        (if node.left == null || depth == 32 then Nh(e) else RibLookup(node.left, addr, depth + 1, e, sh.l))
  }

  /** The search result is the route cached at the last node on the path. */
  lemma {:induction false} RibLookupIsVal(node: RadixNode, addr: u32, depth: nat, en: RadixNode?, sh: Shape, r: Rib)
    requires node == RootOf(sh) && Shows(sh, en, depth, r) && depth <= 32 && Height(r) <= 33 - depth
    ensures RibLookup(node, addr, depth, en, sh) == SubN(Enter(r, Nh(en)), addr, 32 - depth).ext
    decreases sh
  {
    ShowsParts(sh, en, depth, r);
    var e := node.ext;
    var c := Enter(r, Nh(en));
    assert c.ext == Nh(e);
    if depth == 32 {
    } else {
      var b := BitAt(addr, depth);
      ShrStep(addr, 31 - depth);
      SubNHead(c, addr, 31 - depth);
      var child, s, x := if b then node.right else node.left, if b then sh.r else sh.l, if b then r.right else r.left;
      assert Shows(s, e, depth + 1, x);
      if child == null {
        ShowsEmpty(e, depth + 1, x);
        SubNLeaf(Down(c, b), addr, 31 - depth);
      } else {
        RibLookupIsVal(child, addr, depth + 1, e, s, x);
      }
    }
  }

  // ----- clearing the marks below the updated node

  /** r with the marks below the n-bit path i cleared. */
  function UnmarkUnder(r: Rib, i: nat, n: nat): Rib {
    if n == 0 || r.Nil? then Unmark(r)
    else if Bit(i, n - 1) then r.(right := UnmarkUnder(r.right, i, n - 1))
    else r.(left := UnmarkUnder(r.left, i, n - 1))
  }

  /** Only the path from the root to the updated node is unmarked above marks. */
  predicate MarkedUnder(r: Rib, i: nat, n: nat) {
    r.Node? && if n == 0 then Rooted(r)
               else !r.mark && MarkedUnder(Child(r, Bit(i, n - 1)), i, n - 1)
  }

  lemma {:induction false} PutUnmarks(mode: Mode, r: Rib, i: nat, n: nat, route: Option<u16>)
    requires Unmarked(r)
    ensures UnmarkUnder(Put(mode, r, i, n, route), i, n) == Unmark(Put(mode, r, i, n, route))
    ensures MarkedUnder(Put(mode, r, i, n, route), i, n)
  {
    var q := Here(r);
    UnmarkIdentity(q.left);
    UnmarkIdentity(q.right);
    if n == 0 {
      SpreadRooted(mode, q.left);
      SpreadRooted(mode, q.right);
    } else if Bit(i, n - 1) {
      PutUnmarks(mode, q.right, i, n - 1, route);
    } else {
      PutUnmarks(mode, q.left, i, n - 1, route);
    }
  }

  /** Clear the marks left by an update of the given prefix: _clear_mark on the updated node,
      which is reached again along its prefix. */
  method ClearMarks(node: RadixNode, prefix: u32, len: nat, depth: nat, ghost sh: Shape, ghost anc: RadixNode?,
          ghost r: Rib)
    requires sh.Fork? && sh.o == node && Shows(sh, anc, depth, r) && depth <= len <= 32
    requires MarkedUnder(r, Path(prefix, len), len - depth)
    modifies Objs(sh)
    ensures Shows(sh, anc, depth, UnmarkUnder(r, Path(prefix, len), len - depth))
    decreases len - depth
  {
    if depth == len {
      ClearMark(node, sh, anc, depth, r);
    } else {
      ghost var i := Path(prefix, len);
      PathBit(prefix, len, depth);
      ShowsParts(sh, anc, depth, r);
      ObjsParts(sh);
      ShowsEmpty(node.ext, depth + 1, Child(r, Bit(i, len - depth - 1)));
      assert BitAt(prefix, depth) ==> sh.r.Fork?;
      assert !BitAt(prefix, depth) ==> sh.l.Fork?;
      hide Shows, Objs;
      if BitAt(prefix, depth) {
        ClearMarks(node.right, prefix, len, depth + 1, sh.r, node.ext, r.right);
        ShowsNode(sh, anc, depth, false, r.left, UnmarkUnder(r.right, i, len - depth - 1));
      } else {
        ClearMarks(node.left, prefix, len, depth + 1, sh.l, node.ext, r.left);
        ShowsNode(sh, anc, depth, false, UnmarkUnder(r.left, i, len - depth - 1), r.right);
      }
    }
  }
}
