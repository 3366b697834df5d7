/** The record of every single write to what a lookup reads: the arenas, the set of allocated blocks
    and the direct entries.  What an update does to lookups running beside it is a statement about
    the moments of this record. */
module Trace {
  import opened Bits
  import opened Store

  /** The memory and the direct entries after a write, and how many blocks have been asked for and
      refused so far. */
  datatype Moment = Moment(h: Heap, ds: seq<u32>, asked: nat, failed: nat)

  /** One write. */
  datatype Act =
    | SetNode(at: nat, nd: PNode)
    | SetLeaf(at: nat, v: u16)
    | SetDirect(ds: seq<u32>)
    | TakeNodes(at: nat, k: nat)
    | TakeLeaves(at: nat, k: nat)
    | Refuse
    | GiveNodes(at: nat)
    | GiveLeaves(at: nat)

  /** An arena in which a request for a block of up to 64 units may be refused: with one more block there
      could be one in every region of 64 units. */
  ghost predicate Tight(live: map<nat, nat>, total: nat) {
    64 * (|live| + 1) >= total
  }

  ghost predicate Enabled(m: Moment, act: Act) {
    match act
    case SetNode(at, _) => at < |m.h.N|
    case SetLeaf(at, _) => at < |m.h.L|
    case SetDirect(ds) => |ds| == |m.ds|
    case TakeNodes(at, _) => at !in m.h.ln
    case TakeLeaves(at, _) => at !in m.h.ll
    case Refuse => Tight(m.h.ln, |m.h.N|) || Tight(m.h.ll, |m.h.L|)
    case GiveNodes(at) => at in m.h.ln
    case GiveLeaves(at) => at in m.h.ll
  }

  ghost function Do(m: Moment, act: Act): Moment
    requires Enabled(m, act)
  {
    match act
    case SetNode(at, nd) => m.(h := m.h.(N := m.h.N[at := nd]))
    case SetLeaf(at, v) => m.(h := m.h.(L := m.h.L[at := v]))
    case SetDirect(ds) => m.(ds := ds)
    case TakeNodes(at, k) => m.(h := m.h.(ln := m.h.ln[at := k]), asked := m.asked + 1)
    case TakeLeaves(at, k) => m.(h := m.h.(ll := m.h.ll[at := k]), asked := m.asked + 1)
    case Refuse => m.(asked := m.asked + 1, failed := m.failed + 1)
    case GiveNodes(at) => m.(h := m.h.(ln := m.h.ln - {at}))
    case GiveLeaves(at) => m.(h := m.h.(ll := m.h.ll - {at}))
  }

  ghost predicate OneWrite(m: Moment, m': Moment) {
    exists act :: Enabled(m, act) && m' == Do(m, act)
  }

  /** A record of single writes. */
  ghost predicate Chained(t: seq<Moment>) {
    forall i :: 0 < i < |t| ==> OneWrite(t[i - 1], t[i])
  }

  function Last(t: seq<Moment>): Moment
    requires |t| > 0
  {
    t[|t| - 1]
  }

  lemma ChainedPush(t: seq<Moment>, act: Act)
    requires |t| > 0 && Chained(t) && Enabled(Last(t), act)
    ensures Chained(t + [Do(Last(t), act)])
  {}

  // ----- writes that leave something alone

  /** The record has gone on from t0 to t1, and at most n blocks have been asked for. */
  ghost predicate Spends(t0: seq<Moment>, t1: seq<Moment>, n: nat) {
    0 < |t0| && t0 <= t1 && Last(t1).asked <= Last(t0).asked + n
  }

  /** Since t0 the blocks of S and the direct entries have stayed what they were at every moment, and
      at most n blocks have been asked for. */
  ghost predicate Quiet(t0: seq<Moment>, t1: seq<Moment>, S: set<Blk>, n: nat) {
    && 0 < |t0| <= |t1| && t1[..|t0|] == t0 && Last(t1).asked <= Last(t0).asked + n
    && forall j :: |t0| <= j < |t1| ==> Untouched(Last(t0), t1[j], S)
  }

  ghost predicate Untouched(m: Moment, m': Moment, S: set<Blk>) {
    Keeps(m.h, m'.h, S) && m'.ds == m.ds
  }

  lemma QuietSelf(t: seq<Moment>, S: set<Blk>)
    requires |t| > 0
    ensures Quiet(t, t, S, 0)
  {}

  lemma QuietEnd(t0: seq<Moment>, t1: seq<Moment>, S: set<Blk>, n: nat)
    requires Quiet(t0, t1, S, n)
    ensures |t0| > 0 && |t1| > 0 && t0 <= t1
    ensures Last(t1).ds == Last(t0).ds && Keeps(Last(t0).h, Last(t1).h, S)
  {
    if |t1| == |t0| { assert t1 == t0; } else { assert Untouched(Last(t0), t1[|t1| - 1], S); }
  }

  lemma QuietAsked(t0: seq<Moment>, t1: seq<Moment>, S: set<Blk>, n: nat)
    requires Quiet(t0, t1, S, n)
    ensures Spends(t0, t1, n)
  {}

  lemma QuietLess(t0: seq<Moment>, t1: seq<Moment>, S: set<Blk>, n: nat, S': set<Blk>, n': nat)
    requires Quiet(t0, t1, S, n) && S' <= S && n <= n'
    ensures Quiet(t0, t1, S', n')
  {
    forall j | |t0| <= j < |t1| ensures Untouched(Last(t0), t1[j], S') {
      assert Untouched(Last(t0), t1[j], S);
      KeepsLess(Last(t0).h, t1[j].h, S, S');
    }
  }

  lemma QuietThen(t0: seq<Moment>, t1: seq<Moment>, t2: seq<Moment>, S: set<Blk>, n: nat, n': nat)
    requires Quiet(t0, t1, S, n) && Quiet(t1, t2, S, n')
    ensures Quiet(t0, t2, S, n + n')
  {
    hide Keeps;
    QuietEnd(t0, t1, S, n);
    forall j | |t0| <= j < |t2| ensures Untouched(Last(t0), t2[j], S) {
      if j < |t1| {
        assert t2[j] == t1[j] && Untouched(Last(t0), t1[j], S);
      } else {
        assert Untouched(Last(t1), t2[j], S);
        KeepsTransitive(Last(t0).h, Last(t1).h, t2[j].h, S);
      }
    }
    assert t2[..|t0|] == t2[..|t1|][..|t0|];
  }

  /** Building on, beside what was there before the last step. */
  lemma BuildOn(t0: seq<Moment>, t1: seq<Moment>, t2: seq<Moment>, S: set<Blk>, S': set<Blk>, n: nat, n': nat)
    requires Quiet(t0, t1, S, n) && Quiet(t1, t2, S', n') && S <= S'
    ensures Quiet(t0, t2, S, n + n')
  {
    hide Quiet;
    QuietLess(t1, t2, S', n', S, n');
    QuietThen(t0, t1, t2, S, n, n');
  }

  /** A switch: up to moment k nothing that was allocated is touched; that moment is a single write after
      memory hb, with memory ha and the direct entries ds; and then the blocks that ha has outside F are
      not touched.  When k is the end of the record nothing has been switched. */
  ghost predicate Handed(t0: seq<Moment>, t1: seq<Moment>, k: nat, hb: Heap, ha: Heap, ds: seq<u32>, F: set<Blk>,
                         n: nat) {
    && 0 < |t0| <= k <= |t1| && Quiet(t0, t1[..k], Blocks(Last(t0).h), n) && t1[k - 1].h == hb
    && (k < |t1| ==> t1[k] == t1[k - 1].(h := ha, ds := ds) && Quiet(t1[..k + 1], t1, Blocks(ha) - F, 0))
    && (k == |t1| ==> ha == hb && ds == Last(t0).ds)
  }

  lemma HandOver(t0: seq<Moment>, tb: seq<Moment>, m: Moment, t1: seq<Moment>, F: set<Blk>, n: nat)
    requires |t0| > 0 && Quiet(t0, tb, Blocks(Last(t0).h), n) && m == Last(tb).(h := m.h, ds := m.ds)
    requires Quiet(tb + [m], t1, Blocks(m.h) - F, 0)
    ensures Handed(t0, t1, |tb|, Last(tb).h, m.h, m.ds, F, n)
  {
    hide Untouched;
    assert t1[..|tb| + 1] == tb + [m];
    assert t1[..|tb|] == t1[..|tb| + 1][..|tb|] == tb;
    assert t1[|tb|] == t1[..|tb| + 1][|tb|];
    assert t1[|tb| - 1] == tb[|tb| - 1];
  }

  lemma HandNothing(t0: seq<Moment>, t1: seq<Moment>, F: set<Blk>, n: nat)
    requires |t0| > 0 && Quiet(t0, t1, Blocks(Last(t0).h), n)
    ensures Handed(t0, t1, |t1|, Last(t1).h, Last(t1).h, Last(t1).ds, F, n)
  {
    QuietEnd(t0, t1, Blocks(Last(t0).h), n);
    assert t1[..|t1|] == t1;
  }

  lemma BuildThenHand(t0: seq<Moment>, t1: seq<Moment>, t2: seq<Moment>, k: nat, hb: Heap, ha: Heap, ds: seq<u32>,
                      F: set<Blk>, n: nat, n': nat)
    requires |t0| > 0 && |t1| > 0 && Blocks(Last(t0).h) <= Blocks(Last(t1).h)
    requires Quiet(t0, t1, Blocks(Last(t0).h), n) && Handed(t1, t2, k, hb, ha, ds, F, n')
    ensures Handed(t0, t2, k, hb, ha, ds, F, n + n')
  {
    hide Quiet, Blocks;
    QuietEnd(t0, t1, Blocks(Last(t0).h), n);
    BuildOn(t0, t1, t2[..k], Blocks(Last(t0).h), Blocks(Last(t1).h), n, n');
  }

  lemma HandLess(t0: seq<Moment>, t1: seq<Moment>, k: nat, hb: Heap, ha: Heap, ds: seq<u32>, F: set<Blk>, n: nat,
                 n': nat)
    requires Handed(t0, t1, k, hb, ha, ds, F, n) && n <= n'
    ensures Handed(t0, t1, k, hb, ha, ds, F, n')
  {
    hide Blocks;
    QuietLess(t0, t1[..k], Blocks(Last(t0).h), n, Blocks(Last(t0).h), n');
  }

  lemma QuietGrows(t0: seq<Moment>, t1: seq<Moment>, n: nat)
    requires |t0| > 0 && Quiet(t0, t1, Blocks(Last(t0).h), n)
    ensures |t1| > 0 && Grows(Last(t0).h, Last(t1).h) && Blocks(Last(t0).h) <= Blocks(Last(t1).h)
  {
    QuietEnd(t0, t1, Blocks(Last(t0).h), n);
    KeepsHas(Last(t0).h, Last(t1).h, Blocks(Last(t0).h));
  }

  lemma BuildTwice(t0: seq<Moment>, t1: seq<Moment>, t2: seq<Moment>, n: nat, n': nat)
    requires |t0| > 0 && Quiet(t0, t1, Blocks(Last(t0).h), n)
    requires |t1| > 0 && Quiet(t1, t2, Blocks(Last(t1).h), n')
    ensures Quiet(t0, t2, Blocks(Last(t0).h), n + n')
  {
    hide Quiet;
    QuietGrows(t0, t1, n);
    BuildOn(t0, t1, t2, Blocks(Last(t0).h), Blocks(Last(t1).h), n, n');
  }

  /** The moment of the switch, or the end when nothing was switched. */
  function SwitchAt(t: seq<Moment>, sw: nat): Moment
    requires |t| > 0
  {
    if sw < |t| then t[sw] else Last(t)
  }

  lemma HandedEnd(t0: seq<Moment>, t1: seq<Moment>, k: nat, hb: Heap, ha: Heap, ds: seq<u32>, F: set<Blk>, n: nat)
    requires Handed(t0, t1, k, hb, ha, ds, F, n)
    ensures 0 < |t0| <= k <= |t1| && Spends(t0, t1, n)
    ensures SwitchAt(t1, k).h == ha
  {
    assert t0 == t1[..k][..|t0|];
    assert Last(t1[..k]) == t1[k - 1];
    if k < |t1| {
      assert Last(t1[..k + 1]) == t1[k];
    } else {
      assert t1[..k] == t1;
    }
  }

  /** One write that leaves S alone. */
  lemma QuietPush(t: seq<Moment>, m: Moment, S: set<Blk>, n: nat)
    requires |t| > 0 && Untouched(Last(t), m, S) && m.asked <= Last(t).asked + n
    ensures Quiet(t, t + [m], S, n)
  {}

  /** Asking for a block leaves every allocated block alone. */
  lemma AskQuiet(t: seq<Moment>, act: Act)
    requires |t| > 0 && Enabled(Last(t), act) && (act.TakeNodes? || act.TakeLeaves? || act.Refuse?)
    ensures Quiet(t, t + [Do(Last(t), act)], Blocks(Last(t).h), 1)
  {
    var h := Last(t).h;
    match act {
      case TakeNodes(at, k) => AllocN(h, at, k);
      case TakeLeaves(at, k) => AllocL(h, at, k);
      case _ =>
    }
    QuietPush(t, Do(Last(t), act), Blocks(h), 1);
  }

  // ----- how many blocks a part of the record can have used up

  /** Every block that is allocated now and was not before has been asked for; and a request is only
      refused in a tight arena. */
  lemma {:induction false} Spent(t: seq<Moment>, i: nat, j: nat)
    requires Chained(t) && i <= j < |t|
    ensures |t[j].h.N| == |t[i].h.N| && |t[j].h.L| == |t[i].h.L| && t[i].asked <= t[j].asked
    ensures |t[j].h.ln| + t[i].asked <= |t[i].h.ln| + t[j].asked
    ensures |t[j].h.ll| + t[i].asked <= |t[i].h.ll| + t[j].asked
    ensures t[i].failed <= t[j].failed
    ensures t[i].failed < t[j].failed ==>
      || 64 * (|t[i].h.ln| + t[j].asked - t[i].asked) >= |t[i].h.N|
      || 64 * (|t[i].h.ll| + t[j].asked - t[i].asked) >= |t[i].h.L|
    decreases j
  {
    hide OneWrite;
    if i < j {
      Spent(t, i, j - 1);
      OneSpent(t[j - 1], t[j]);
    }
  }

  lemma OneSpent(m: Moment, m': Moment)
    requires OneWrite(m, m')
    ensures |m'.h.N| == |m.h.N| && |m'.h.L| == |m.h.L| && m.asked <= m'.asked
    ensures |m'.h.ln| + m.asked <= |m.h.ln| + m'.asked && |m'.h.ll| + m.asked <= |m.h.ll| + m'.asked
    ensures m'.failed == m.failed || (m'.failed == m.failed + 1 && m'.asked == m.asked + 1
                                      && (Tight(m.h.ln, |m.h.N|) || Tight(m.h.ll, |m.h.L|)))
  {
    var act :| Enabled(m, act) && m' == Do(m, act);
    match act {
      case TakeNodes(at, k) => TakenSize(m.h.ln, at, k);
      case TakeLeaves(at, k) => TakenSize(m.h.ll, at, k);
      case GiveNodes(at) => GivenSize(m.h.ln, at);
      case GiveLeaves(at) => GivenSize(m.h.ll, at);
      case _ =>
    }
  }

  lemma TakenSize(live: map<nat, nat>, at: nat, k: nat)
    requires at !in live
    ensures |live[at := k]| == |live| + 1
  {
    assert live[at := k].Keys == live.Keys + {at};
    assert |live.Keys| == |live| && |live[at := k].Keys| == |live[at := k]|;
  }

  lemma GivenSize(live: map<nat, nat>, at: nat)
    requires at in live
    ensures |live - {at}| == |live| - 1
  {
    assert (live - {at}).Keys == live.Keys - {at};
    assert |live.Keys| == |live| && |(live - {at}).Keys| == |live - {at}|;
  }

  /** Room for n more blocks in both arenas. */
  ghost predicate Fits(h: Heap, n: nat) {
    64 * (|h.ln| + n) < |h.N| && 64 * (|h.ll| + n) < |h.L|
  }

  /** Where there is room for all the blocks asked for, none is refused. */
  lemma NoneRefused(t0: seq<Moment>, t1: seq<Moment>, n: nat)
    requires Chained(t1) && Spends(t0, t1, n) && Fits(Last(t0).h, n)
    ensures Last(t1).failed == Last(t0).failed
  {
    Spent(t1, |t0| - 1, |t1| - 1);
  }
}
