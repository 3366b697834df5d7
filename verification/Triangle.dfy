/** Reading the radix tree block by block: _parse_triangle and _next_block. */
module Triangle {
  import opened Bits
  import opened Rib
  import opened Trie
  import opened Radix

  /** The fields of a radix node that the update reads; _parse_triangle copies node structures. */
  datatype RView = RView(left: RadixNode?, right: RadixNode?, ext: RadixNode?)

  function Copy(n: RadixNode): RView
    reads n
  {
    RView(n.left, n.right, n.ext)
  }

  function Blank(ext: RadixNode?): RView {
    RView(null, null, ext)
  }

  /** v is the radix position c at depth d; its subtrees are sl and sr, all within W. */
  ghost predicate Sees(v: RView, sl: Shape, sr: Shape, d: nat, c: Cur, W: set<object>)
    reads W
  {
    && Objs(sl) <= W && Objs(sr) <= W && (v.ext != null ==> v.ext in W)
    && v.left == RootOf(sl) && v.right == RootOf(sr)
    && Shows(sl, v.ext, d + 1, c.left) && Shows(sr, v.ext, d + 1, c.right)
    && Nh(v.ext) == c.ext
  }

  /** The position one step down, existing or not. */
  lemma SeesDown(v: RView, sl: Shape, sr: Shape, d: nat, c: Cur, W: set<object>, b: bool)
    requires Sees(v, sl, sr, d, c, W)
    ensures var s := if b then sr else sl;
            if s.Fork? then Sees(Copy(s.o), s.l, s.r, d + 1, Down(c, b), W)
            else Sees(Blank(v.ext), Empty, Empty, d + 1, Down(c, b), W)
    ensures (if b then v.right else v.left) == RootOf(if b then sr else sl)
    ensures (if b then sr else sl).Empty? <==> (if b then c.right else c.left).Nil?
  {
    var s, r := if b then sr else sl, if b then c.right else c.left;
    if s.Fork? {
      ShowsParts(s, v.ext, d + 1, r);
    } else {
      ShowsEmpty(v.ext, d + 1, r);
      ShowsEmpty(v.ext, d + 2, Nil);
    }
  }

  /** What the tests on a position mean. */
  lemma SeesTests(v: RView, sl: Shape, sr: Shape, d: nat, c: Cur, W: set<object>)
    requires Sees(v, sl, sr, d, c, W)
    ensures v.left != null ==> v.left in W && (v.left.mark <==> c.left.mark)
    ensures v.right != null ==> v.right in W && (v.right.mark <==> c.right.mark)
    ensures v.left == null <==> c.left.Nil?
    ensures v.right == null <==> c.right.Nil?
    ensures (v.ext != null ==> v.ext in W) && Nh(v.ext) == c.ext
  {
    if sl.Fork? { ShowsParts(sl, v.ext, d + 1, c.left); } else { ShowsEmpty(v.ext, d + 1, c.left); }
    if sr.Fork? { ShowsParts(sr, v.ext, d + 1, c.right); } else { ShowsEmpty(v.ext, d + 1, c.right); }
  }

  // ----- halves of a block

  lemma {:induction false} BitHigh(j: nat, n: nat)
    requires j < Pow2(n + 1)
    ensures Bit(j, n) <==> j >= Pow2(n)
  {
    if n > 0 { BitHigh(j / 2, n - 1); }
  }

  lemma {:induction false} SubNLow(c: Cur, j: nat, n: nat)
    ensures SubN(c, Pow2(n) + j, n) == SubN(c, j, n)
  {
    if n > 0 {
      assert (Pow2(n) + j) / 2 == Pow2(n - 1) + j / 2;
      SubNLow(c, j / 2, n - 1);
    }
  }

  lemma LeftHalf(c: Cur, j: nat, k: nat)
    requires j < Pow2(k)
    ensures SubN(c, j, k + 1) == SubN(Down(c, false), j, k)
  {
    SubNHead(c, j, k);
    BitHigh(j, k);
  }

  lemma RightHalf(c: Cur, j: nat, k: nat)
    requires j < Pow2(k)
    ensures SubN(c, Pow2(k) + j, k + 1) == SubN(Down(c, true), j, k)
  {
    SubNHead(c, Pow2(k) + j, k);
    BitHigh(Pow2(k) + j, k);
    SubNLow(Down(c, true), j, k);
  }

  // ----- _parse_triangle

  datatype Shapes = Shapes(sl: Shape, sr: Shape)

  /** The triangle built so far: copies of the bottom nodes and the vector of those with children. */
  datatype Bottom = Bottom(nodes: seq<RView>, vector: u64, ghost shs: seq<Shapes>)

  ghost predicate Sized(t: Bottom) { |t.nodes| == 64 && |t.shs| == 64 }

  ghost predicate Entry(t: Bottom, i: nat, d: nat, c: Cur, W: set<object>)
    reads W
  {
    && Sized(t) && i < 64
    && Sees(t.nodes[i], t.shs[i].sl, t.shs[i].sr, d, c, W)
    && (Bit(t.vector, i) <==> !IsLeaf(c))
  }

  /** Entries pos .. pos + 2^k are the positions k levels below c. */
  ghost predicate Parsed(t: Bottom, pos: nat, k: nat, d: nat, c: Cur, W: set<object>)
    reads W
  {
    forall j :: 0 <= j < Pow2(k) ==> Entry(t, pos + j, d + k, SubN(c, j, k), W)
  }

  /** Only entries pos .. pos + n differ between the two triangles. */
  ghost predicate SameOutside(t: Bottom, t': Bottom, pos: nat, n: nat) {
    && Sized(t) && Sized(t')
    && forall i :: 0 <= i < 64 && !(pos <= i < pos + n) ==>
         t'.nodes[i] == t.nodes[i] && t'.shs[i] == t.shs[i] && Bit(t'.vector, i) == Bit(t.vector, i)
  }

  ghost predicate ClearAt(t: Bottom, pos: nat, n: nat) {
    forall i :: pos <= i < pos + n && i < 64 ==> !Bit(t.vector, i)
  }

  method ParseTriangle(v: RView, t: Bottom, pos: nat, depth: nat,
                       ghost sl: Shape, ghost sr: Shape, ghost d: nat, ghost c: Cur, ghost W: set<object>)
    returns (t': Bottom)
    requires depth <= 6 && Sees(v, sl, sr, d, c, W)
    requires Sized(t) && pos + Pow2(6 - depth) <= 64 && ClearAt(t, pos, Pow2(6 - depth))
    ensures Parsed(t', pos, 6 - depth, d, c, W)
    ensures SameOutside(t, t', pos, Pow2(6 - depth))
    decreases 6 - depth, 1
  {
    hide Sees, SubN, Objs, Bit, Pow2, Parsed, Copy, Down;
    if depth == 6 {
      Pow2Zero();
      t' := ParseBottom(v, t, pos, sl, sr, d, c, W);
    } else {
      ghost var k := 5 - depth;
      var hlen := Pow2(5 - depth);
      Doubling(k);
      SeesDown(v, sl, sr, d, c, W, false);
      SeesDown(v, sl, sr, d, c, W, true);
      var t1 := ParseHalf(v.left, v.ext, t, pos, depth, sl, d + 1, Down(c, false), W);
      t' := ParseHalf(v.right, v.ext, t1, pos + hlen, depth, sr, d + 1, Down(c, true), W);
      ParsedJoin(t1, t', pos, k, d, c, W);
    }
  }

  /** One half of the triangle below a node: the child's triangle, or copies of the node. */
  method ParseHalf(child: RadixNode?, ext: RadixNode?, t: Bottom, pos: nat, depth: nat,
                   ghost s: Shape, ghost d: nat, ghost c: Cur, ghost W: set<object>)
    returns (t': Bottom)
    requires depth < 6 && child == RootOf(s)
    requires if s.Fork? then Sees(Copy(s.o), s.l, s.r, d, c, W) else Sees(Blank(ext), Empty, Empty, d, c, W)
    requires Sized(t) && pos + Pow2(5 - depth) <= 64 && ClearAt(t, pos, Pow2(5 - depth))
    ensures Parsed(t', pos, 5 - depth, d, c, W)
    ensures SameOutside(t, t', pos, Pow2(5 - depth))
    decreases 6 - depth, 0
  {
    if child != null {
      t' := ParseTriangle(Copy(child), t, pos, depth + 1, s.l, s.r, d, c, W);
    } else {
      t' := FillHalf(ext, t, pos, Pow2(5 - depth), 5 - depth, d, c, W);
    }
  }

  /** The bottom of the triangle: copy the node and flag it if it has children. */
  method ParseBottom(v: RView, t: Bottom, pos: nat,
                     ghost sl: Shape, ghost sr: Shape, ghost d: nat, ghost c: Cur, ghost W: set<object>)
    returns (t': Bottom)
    requires Sees(v, sl, sr, d, c, W) && Sized(t) && pos < 64 && !Bit(t.vector, pos)
    ensures Parsed(t', pos, 0, d, c, W)
    ensures SameOutside(t, t', pos, 1)
  {
    SeesTests(v, sl, sr, d, c, W);
    hide Sees, Objs, Bit;
    var vector := if v.left != null || v.right != null then VecSet(t.vector, pos) else t.vector;
    t' := Bottom(t.nodes[pos := v], vector, t.shs[pos := Shapes(sl, sr)]);
    assert SubN(c, 0, 0) == c;
    assert Entry(t', pos + 0, d + 0, SubN(c, 0, 0), W);
  }

  /** The loop over a missing half: every entry is a copy of the node without children. */
  method FillHalf(ext: RadixNode?, t: Bottom, pos: nat, hlen: nat,
                  ghost k: nat, ghost d: nat, ghost c: Cur, ghost W: set<object>)
    returns (t': Bottom)
    requires Sees(Blank(ext), Empty, Empty, d, c, W) && hlen == Pow2(k)
    requires Sized(t) && pos + hlen <= 64 && ClearAt(t, pos, hlen)
    ensures Parsed(t', pos, k, d, c, W)
    ensures SameOutside(t, t', pos, hlen)
  {
    BlankLeaf(ext, d, c, W, d + k);
    hide Sees, SubN, Objs, Bit, Shows;
    t' := t;
    var i := pos;
    while i < pos + hlen
      invariant pos <= i <= pos + hlen
      invariant Sized(t') && t'.vector == t.vector
      invariant forall j :: 0 <= j < 64 ==>
        t'.nodes[j] == (if pos <= j < i then Blank(ext) else t.nodes[j])
        && t'.shs[j] == (if pos <= j < i then Shapes(Empty, Empty) else t.shs[j])
    {
      t' := Bottom(t'.nodes[i := Blank(ext)], t'.vector, t'.shs[i := Shapes(Empty, Empty)]);
      i := i + 1;
    }
    forall j | 0 <= j < Pow2(k) ensures Entry(t', pos + j, d + k, SubN(c, j, k), W) {
      SubNLeaf(c, j, k);
    }
  }

  lemma BlankLeaf(ext: RadixNode?, d: nat, c: Cur, W: set<object>, d': nat)
    requires Sees(Blank(ext), Empty, Empty, d, c, W)
    ensures Sees(Blank(ext), Empty, Empty, d', c, W) && IsLeaf(c)
  {
    ShowsEmpty(ext, d + 1, c.left);
    ShowsEmpty(ext, d + 1, c.right);
    ShowsEmpty(ext, d' + 1, c.left);
    ShowsEmpty(ext, d' + 1, c.right);
  }

  lemma ParsedJoin(t1: Bottom, t2: Bottom, pos: nat, k: nat, d: nat, c: Cur, W: set<object>)
    requires pos + Pow2(k + 1) <= 64
    requires Parsed(t1, pos, k, d + 1, Down(c, false), W)
    requires Parsed(t2, pos + Pow2(k), k, d + 1, Down(c, true), W)
    requires SameOutside(t1, t2, pos + Pow2(k), Pow2(k))
    ensures Parsed(t2, pos, k + 1, d, c, W)
  {
    hide Sees, SubN, Objs, Bit;
    Doubling(k);
    var k1 := k + 1;
    forall j | 0 <= j < Pow2(k1) ensures Entry(t2, pos + j, d + k1, SubN(c, j, k1), W) {
      if j < Pow2(k) {
        LeftHalf(c, j, k);
        assert Entry(t1, pos + j, d + 1 + k, SubN(Down(c, false), j, k), W);
      } else {
        RightHalf(c, j - Pow2(k), k);
        assert Entry(t2, pos + Pow2(k) + (j - Pow2(k)), d + 1 + k, SubN(Down(c, true), j - Pow2(k), k), W);
      }
    }
  }

  // ----- _next_block

  /** The radix node `depth - shift` bits further down along idx, if there is one. */
  function NextBlock(node: RadixNode?, idx: nat, shift: nat, depth: nat, ghost sh: Shape): (r: RadixNode?)
    requires shift <= depth && node == RootOf(sh) && Linked(sh)
    reads Objs(sh)
    decreases depth - shift
  {
    if node == null then null
    else if shift == depth then node
    else if Shr(idx, depth - shift - 1) % 2 == 1 then NextBlock(node.right, idx, shift + 1, depth, sh.r)
    else NextBlock(node.left, idx, shift + 1, depth, sh.l)
  }

  /** The subtree that _next_block reaches. */
  function NextShape(sh: Shape, i: nat, n: nat): Shape {
    if n == 0 || sh.Empty? then sh else NextShape(if Bit(i, n - 1) then sh.r else sh.l, i, n - 1)
  }

  /** _next_block finds the radix position that the bit walk finds. */
  lemma {:induction false} NextBlockSees(sh: Shape, v: RView, sl: Shape, sr: Shape, d: nat, c: Cur, W: set<object>,
                                         idx: nat, shift: nat, depth: nat)
    requires shift <= depth && sh.Fork? && Linked(sh)
    requires v == Copy(sh.o) && sl == sh.l && sr == sh.r && Sees(v, sl, sr, d, c, W)
    ensures var n := NextBlock(sh.o, idx, shift, depth, sh); var s := NextShape(sh, idx, depth - shift);
            && n == RootOf(s)
            && (n == null ==> IsLeaf(SubN(c, idx, depth - shift)))
            && (n != null ==> Sees(Copy(n), s.l, s.r, d + (depth - shift), SubN(c, idx, depth - shift), W)
                              && s.Fork? && Linked(s))
    decreases depth - shift
  {
    if shift < depth {
      var b := Bit(idx, depth - shift - 1);
      ShrStep(idx, depth - shift - 1);
      SubNHead(c, idx, depth - shift - 1);
      SeesDown(v, sl, sr, d, c, W, b);
      var s := if b then sr else sl;
      if s.Fork? {
        NextBlockSees(s, Copy(s.o), s.l, s.r, d + 1, Down(c, b), W, idx, shift + 1, depth);
      } else {
        BlankLeaf(v.ext, d + 1, Down(c, b), W, d + 1);
        SubNLeaf(Down(c, b), idx, depth - shift - 1);
      }
    }
  }
}
