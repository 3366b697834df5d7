/** How many radix nodes lie below a position, and with them how many blocks an update can need. */
module Cost {
  import opened Bits
  import opened Rib

  /** The nodes of a radix subtree. */
  function Count(r: Rib): nat {
    if r.Nil? then 0 else 1 + Count(r.left) + Count(r.right)
  }

  /** The radix nodes below a position. */
  function Posts(c: Cur): nat { Count(c.left) + Count(c.right) }

  /** Those below the first i positions that lie n levels below c. */
  function Level(c: Cur, n: nat, i: nat): nat {
    if i == 0 then 0 else Level(c, n, i - 1) + Posts(SubN(c, i - 1, n))
  }

  /** Blocks asked for by a build at c: two for every node made, and a node is only made for a position
      with radix nodes below it, or at the top. */
  function Need(c: Cur): nat {
    if IsLeaf(c) then 2 else 2 * Posts(c)
  }

  lemma PostsSplit(c: Cur)
    ensures Posts(Down(c, false)) + Posts(Down(c, true)) + (if IsLeaf(c) then 0 else 1) <= Posts(c)
  {}

  lemma {:induction false} LevelSplit(c: Cur, n: nat, i: nat)
    ensures Level(c, n + 1, 2 * i) <= Level(c, n, i)
  {
    hide SubN, Posts, Down;
    if i > 0 {
      LevelSplit(c, n, i - 1);
      PostsSplit(SubN(c, i - 1, n));
      SubNHalves(c, i - 1, n);
      TwoMore(c, n + 1, 2 * (i - 1));
      assert 2 * (i - 1) + 2 == 2 * i;
    }
  }

  lemma TwoMore(c: Cur, n: nat, k: nat)
    ensures Level(c, n, k + 2) == Level(c, n, k) + Posts(SubN(c, k, n)) + Posts(SubN(c, k + 1, n))
  {
    hide SubN, Posts;
  }

  lemma AtStart(c: Cur)
    ensures SubN(c, 0, 0) == c && Level(c, 1, 0) == 0
  {}

  /** A node and the nodes below it need no more than two blocks for every radix node below. */
  lemma BlockPosts(c: Cur)
    ensures 2 + 2 * Level(c, 6, 64) <= Need(c)
  {
    PostsSplit(c);
    hide Posts, Down, SubN;
    SubNHalves(c, 0, 0);
    AtStart(c);
    LeafPosts(c);
    TwoMore(c, 1, 0);
    LevelSplit(c, 1, 2);
    LevelSplit(c, 2, 4);
    LevelSplit(c, 3, 8);
    LevelSplit(c, 4, 16);
    LevelSplit(c, 5, 32);
  }

  lemma LevelStart(c: Cur)
    ensures Level(c, 6, 0) == 0
  {}

  lemma LevelStep(c: Cur, i: nat)
    requires i < 64
    ensures Level(c, 6, i + 1) == Level(c, 6, i) + Posts(SubN(c, i, 6))
    ensures 2 * Level(c, 6, i + 1) <= Need(c)
  {
    LevelMore(c, i + 1, 64);
    BlockPosts(c);
  }

  lemma {:induction false} LevelMore(c: Cur, i: nat, k: nat)
    requires i <= k
    ensures Level(c, 6, i) <= Level(c, 6, k)
    decreases k
  {
    if i < k { LevelMore(c, i, k - 1); }
  }

  lemma LeafPosts(c: Cur)
    ensures IsLeaf(c) <==> Posts(c) == 0
  {}

  /** Below a position n levels down there are no more nodes. */
  lemma {:induction false} SubPosts(c: Cur, i: nat, n: nat)
    ensures Posts(SubN(c, i, n)) <= Posts(c)
  {
    if n > 0 {
      SubPosts(c, i / 2, n - 1);
      PostsSplit(SubN(c, i / 2, n - 1));
    }
  }

  /** Blocks asked for when the direct entries below a radix node are drafted. */
  function DraftNeed(c: Cur): nat { 7 * (Posts(c) + 1) }

  function HalfNeed(c: Cur, present: bool): nat { if present then DraftNeed(c) else 0 }

  lemma HalvesNeed(c: Cur)
    ensures HalfNeed(Down(c, false), c.left.Node?) + HalfNeed(Down(c, true), c.right.Node?) <= DraftNeed(c)
  {}

  lemma DraftNeedBelow(c: Cur, i: nat, n: nat)
    ensures DraftNeed(SubN(c, i, n)) <= DraftNeed(c)
  {
    SubPosts(c, i, n);
  }

  lemma OneNeed(c: Cur)
    ensures Need(c) + 5 <= DraftNeed(c)
  {}

  // ----- updates of the radix tree

  lemma {:induction false} SpreadCount(mode: Mode, r: Rib)
    ensures Count(Spread(mode, r)) == Count(r)
  {
    if r.Node? && r.route.None? {
      SpreadCount(mode, r.left);
      SpreadCount(mode, r.right);
    }
  }

  /** An update adds at most the nodes of its path. */
  lemma {:induction false} PutCount(mode: Mode, r: Rib, i: nat, n: nat, route: Option<u16>)
    ensures 1 <= Count(Put(mode, r, i, n, route)) <= Count(r) + n + 1
  {
    if n == 0 {
      if r.Node? {
        SpreadCount(mode, r.left);
        SpreadCount(mode, r.right);
      }
    } else {
      var q := if r.Nil? then Node(None, false, Nil, Nil) else r;
      PutCount(mode, if Bit(i, n - 1) then q.right else q.left, i, n - 1, route);
    }
  }

  lemma {:induction false} UnmarkCount(r: Rib)
    ensures Count(Unmark(r)) == Count(r)
  {
    if r.Node? {
      UnmarkCount(r.left);
      UnmarkCount(r.right);
    }
  }

  /** What the update of the fast form asks for, by the nodes of the new radix tree. */
  lemma PutNeed(mode: Mode, r: Rib, i: nat, n: nat, route: Option<u16>)
    ensures var r1 := Put(mode, r, i, n, route);
      DraftNeed(Enter(r1, 0)) <= 7 * Count(r1) && 2 * Posts(Enter(r1, 0)) + 11 <= 7 * Count(r1) + 11
  {}
}
