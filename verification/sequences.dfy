/** Generic facts about sequences of sequences and about index sequences. */
module Sequences {

  /** Concatenation of a list of groups, in order. */
  function Flatten<T>(gs: seq<seq<T>>): seq<T>
    decreases |gs|
  {
    if gs == [] then [] else Flatten(gs[..|gs| - 1]) + gs[|gs| - 1]
  }

  lemma FlattenSnoc<T>(gs: seq<seq<T>>, g: seq<T>)
    ensures Flatten(gs + [g]) == Flatten(gs) + g
  {
    assert (gs + [g])[..|gs|] == gs;
  }

  lemma FlattenEmptyGroups<T>(gs: seq<seq<T>>)
    requires forall k :: 0 <= k < |gs| ==> gs[k] == []
    ensures Flatten(gs) == []
    decreases |gs|
  {
    if gs != [] {
      FlattenEmptyGroups(gs[..|gs| - 1]);
    }
  }

  /** Position of group k's first element inside Flatten(gs). */
  function Offset<T>(gs: seq<seq<T>>, k: nat): nat
    requires k <= |gs|
  {
    |Flatten(gs[..k])|
  }

  lemma {:induction false} FlattenAt<T>(gs: seq<seq<T>>, k: nat, j: nat)
    requires k < |gs| && j < |gs[k]|
    ensures Offset(gs, k) + |gs[k]| <= |Flatten(gs)|
    ensures Offset(gs, k) + j < |Flatten(gs)|
    ensures Flatten(gs)[Offset(gs, k) + j] == gs[k][j]
    decreases |gs|
  {
    var n := |gs| - 1;
    assert gs == gs[..n] + [gs[n]];
    FlattenSnoc(gs[..n], gs[n]);
    if k == n {
      assert gs[..k] == gs[..n];
    } else {
      assert gs[..n][..k] == gs[..k];
      FlattenAt(gs[..n], k, j);
    }
  }

  lemma {:induction false} OffsetMonotone<T>(gs: seq<seq<T>>, k1: nat, k2: nat)
    requires k1 < k2 <= |gs|
    ensures Offset(gs, k1) + |gs[k1]| <= Offset(gs, k2)
    decreases k2
  {
    assert gs[..k1 + 1] == gs[..k1] + [gs[k1]];
    FlattenSnoc(gs[..k1], gs[k1]);
    if k2 > k1 + 1 {
      OffsetMonotone(gs, k1, k2 - 1);
      assert gs[..k2] == gs[..k2 - 1] + [gs[k2 - 1]];
      FlattenSnoc(gs[..k2 - 1], gs[k2 - 1]);
    }
  }

  /** Every element of a flattened list sits in some group. */
  lemma {:induction false} FlattenMember<T>(gs: seq<seq<T>>, x: T)
    requires x in Flatten(gs)
    ensures exists k, j :: 0 <= k < |gs| && 0 <= j < |gs[k]| && gs[k][j] == x
    decreases |gs|
  {
    var n := |gs| - 1;
    assert gs == gs[..n] + [gs[n]];
    FlattenSnoc(gs[..n], gs[n]);
    if x in Flatten(gs[..n]) {
      FlattenMember(gs[..n], x);
      var k, j :| 0 <= k < n && 0 <= j < |gs[..n][k]| && gs[..n][k][j] == x;
      assert gs[k][j] == x;
    } else {
      assert x in gs[n];
      var j :| 0 <= j < |gs[n]| && gs[n][j] == x;
    }
  }

  /** Strictly ascending: no repeats, and order is position order. */
  predicate Increasing(s: seq<int>)
  {
    forall i, j :: 0 <= i < j < |s| ==> s[i] < s[j]
  }

  /**
   * An ascending flattening lists every group in ascending order and puts
   * each group wholly before the next: the groups are disjoint and ordered.
   */
  lemma IncreasingFlattenOrdered(gs: seq<seq<nat>>)
    requires Increasing(Flatten(gs))
    ensures forall k, j1, j2 :: 0 <= k < |gs| && 0 <= j1 < j2 < |gs[k]| ==> gs[k][j1] < gs[k][j2]
    ensures forall k1, k2, j1, j2 ::
              0 <= k1 < k2 < |gs| && 0 <= j1 < |gs[k1]| && 0 <= j2 < |gs[k2]| ==> gs[k1][j1] < gs[k2][j2]
  {
    forall k, j1, j2 | 0 <= k < |gs| && 0 <= j1 < j2 < |gs[k]|
      ensures gs[k][j1] < gs[k][j2]
    {
      FlattenAt(gs, k, j1);
      FlattenAt(gs, k, j2);
    }
    forall k1, k2, j1, j2 | 0 <= k1 < k2 < |gs| && 0 <= j1 < |gs[k1]| && 0 <= j2 < |gs[k2]|
      ensures gs[k1][j1] < gs[k2][j2]
    {
      FlattenAt(gs, k1, j1);
      FlattenAt(gs, k2, j2);
      OffsetMonotone(gs, k1, k2);
    }
  }
}
