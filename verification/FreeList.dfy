/** Free lists threaded through the block array: a head word, and one link word at the
    start of every listed block. */
module FreeList {
  import opened Bits

  /** BUDDY_EOL */
  const EOL: nat := 0xffff_ffff

  function Nth(L: seq<nat>, i: nat): nat {
    if i < |L| then L[i] else EOL
  }

  ghost predicate Distinct(L: seq<nat>) {
    forall i, j :: 0 <= i < j < |L| ==> L[i] != L[j]
  }

  /** Following the links from the head word visits exactly L and ends at EOL. */
  ghost predicate Threaded(head: nat, links: seq<nat>, L: seq<nat>) {
    && head == Nth(L, 0)
    && forall i :: 0 <= i < |L| ==> L[i] < |links| && links[L[i]] == Nth(L, i + 1)
  }

  lemma ThreadedPush(head: nat, links: seq<nat>, L: seq<nat>, a: nat)
    requires Threaded(head, links, L) && a < |links| && a !in L
    ensures Threaded(a, links[a := head], [a] + L)
  {
    var M := [a] + L;
    forall i | 0 <= i < |M| ensures M[i] < |links| && links[a := head][M[i]] == Nth(M, i + 1) {
      if i > 0 { assert M[i] == L[i - 1]; }
    }
  }

  lemma ThreadedPop(head: nat, links: seq<nat>, L: seq<nat>)
    requires Threaded(head, links, L) && L != []
    ensures Threaded(links[L[0]], links, L[1..])
  {
    var M := L[1..];
    forall i | 0 <= i < |M| ensures M[i] < |links| && links[M[i]] == Nth(M, i + 1) {
      assert M[i] == L[i + 1];
    }
  }

  /** L without its p-th entry. */
  function Without(L: seq<nat>, p: nat): seq<nat>
    requires p < |L|
  {
    L[..p] + L[p + 1..]
  }

  /** L with a inserted before position p. */
  function With(L: seq<nat>, p: nat, a: nat): seq<nat>
    requires p <= |L|
  {
    L[..p] + [a] + L[p..]
  }

  /** p is where a sorted insertion of a stops: before the first element above a. */
  ghost predicate FirstAbove(L: seq<nat>, p: nat, a: nat) {
    p <= |L| && (forall i :: 0 <= i < p ==> L[i] <= a) && (p < |L| ==> a < L[p])
  }

  lemma WithoutAt(L: seq<nat>, p: nat, i: nat)
    requires p < |L|
    ensures |Without(L, p)| == |L| - 1
    ensures Nth(Without(L, p), i) == Nth(L, if i < p then i else i + 1)
    ensures i < |L| - 1 ==> Without(L, p)[i] == L[if i < p then i else i + 1]
  {}

  lemma WithAt(L: seq<nat>, p: nat, a: nat, i: nat)
    requires p <= |L|
    ensures Nth(With(L, p, a), i) == if i < p then L[i] else if i == p then a else Nth(L, i - 1)
  {}

  /** `*n = links[*n]` with the cursor n at the link of block L[p - 1]. */
  lemma ThreadedUnlink(head: nat, links: seq<nat>, L: seq<nat>, p: nat)
    requires Threaded(head, links, L) && Distinct(L) && 0 < p < |L|
    ensures L[p - 1] < |links| && L[p] < |links|
    ensures Threaded(head, links[L[p - 1] := links[L[p]]], Without(L, p))
  {
    hide Nth, Without;
    var M, l2 := Without(L, p), links[L[p - 1] := links[L[p]]];
    WithoutAt(L, p, 0);
    forall i | 0 <= i < |M| ensures M[i] < |links| && l2[M[i]] == Nth(M, i + 1) {
      WithoutAt(L, p, i);
      WithoutAt(L, p, i + 1);
      var j := if i < p then i else i + 1;
      assert M[i] == L[j] && links[L[j]] == Nth(L, j + 1);
      if j != p - 1 { assert L[j] != L[p - 1]; }
    }
  }

  /** `*n = a; links[a] = next` with the cursor n at the link of block L[p - 1]. */
  lemma ThreadedInsert(head: nat, links: seq<nat>, L: seq<nat>, p: nat, a: nat)
    requires Threaded(head, links, L) && Distinct(L) && 0 < p <= |L|
    requires a < |links| && a !in L
    ensures L[p - 1] < |links|
    ensures Threaded(head, links[L[p - 1] := a][a := Nth(L, p)], With(L, p, a))
  {
    var M, l2 := With(L, p, a), links[L[p - 1] := a][a := Nth(L, p)];
    WithAt(L, p, a, 0);
    forall i | 0 <= i < |M| ensures M[i] < |links| && l2[M[i]] == Nth(M, i + 1) {
      WithAt(L, p, a, i);
      WithAt(L, p, a, i + 1);
      if i != p {
        var j := if i < p then i else i - 1;
        assert M[i] == L[j] && links[L[j]] == Nth(L, j + 1);
        assert L[j] in L;
        if j != p - 1 { assert L[j] != L[p - 1]; }
      }
    }
  }

  lemma DistinctWithout(L: seq<nat>, p: nat)
    requires Distinct(L) && p < |L|
    ensures Distinct(Without(L, p))
    ensures forall x :: x in Without(L, p) <==> x in L && x != L[p]
  {
    var M := Without(L, p);
    forall i, j | 0 <= i < j < |M| ensures M[i] != M[j] {
      WithoutAt(L, p, i);
      WithoutAt(L, p, j);
      assert L[if i < p then i else i + 1] != L[if j < p then j else j + 1];
    }
    forall x | x in M ensures x in L && x != L[p] {
      var i :| 0 <= i < |M| && M[i] == x;
      WithoutAt(L, p, i);
      assert x == L[if i < p then i else i + 1];
    }
    forall x | x in L && x != L[p] ensures x in M {
      var j :| 0 <= j < |L| && L[j] == x;
      assert x == M[if j < p then j else j - 1];
    }
  }

  lemma DistinctWith(L: seq<nat>, p: nat, a: nat)
    requires Distinct(L) && p <= |L| && a !in L
    ensures Distinct(With(L, p, a))
    ensures forall x :: x in With(L, p, a) <==> x in L || x == a
  {
    var M := With(L, p, a);
    forall i, j | 0 <= i < j < |M| ensures M[i] != M[j] {
      WithAt(L, p, a, i);
      WithAt(L, p, a, j);
      if i != p && j != p {
        assert L[if i < p then i else i - 1] != L[if j < p then j else j - 1];
      }
    }
    assert L == L[..p] + L[p..];
  }
}
