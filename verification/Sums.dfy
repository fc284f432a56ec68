/** Sums over the front of a sequence. */
module Sums {

  function Prefix(v: seq<int>, k: nat): int
    requires k <= |v|
  {
    if k == 0 then 0 else Prefix(v, k - 1) + v[k - 1]
  }

  function Sum(v: seq<int>): int { Prefix(v, |v|) }

  lemma {:induction false} PrefixAgree(v: seq<int>, w: seq<int>, k: nat)
    requires k <= |v| && k <= |w| && forall i | 0 <= i < k :: v[i] == w[i]
    ensures Prefix(v, k) == Prefix(w, k)
  {
    if k > 0 {
      PrefixAgree(v, w, k - 1);
    }
  }

  lemma SumAppend(v: seq<int>, x: int)
    ensures Sum(v + [x]) == Sum(v) + x
  {
    PrefixAgree(v + [x], v, |v|);
  }

  lemma {:induction false} PrefixUpdate(v: seq<int>, i: nat, x: int, k: nat)
    requires i < |v| && k <= |v|
    ensures Prefix(v[i := x], k) == Prefix(v, k) + if i < k then x - v[i] else 0
  {
    if k > 0 {
      PrefixUpdate(v, i, x, k - 1);
    }
  }

  lemma {:induction false} PrefixAdd(v: seq<int>, w: seq<int>, u: seq<int>, k: nat)
    requires |v| == |w| == |u| && k <= |v| && forall i | 0 <= i < |v| :: u[i] == v[i] + w[i]
    ensures Prefix(u, k) == Prefix(v, k) + Prefix(w, k)
  {
    if k > 0 {
      PrefixAdd(v, w, u, k - 1);
    }
  }

  lemma {:induction false} PrefixMonotone(v: seq<int>, j: nat, k: nat)
    requires j <= k <= |v| && forall i | 0 <= i < |v| :: v[i] >= 0
    ensures Prefix(v, j) <= Prefix(v, k)
  {
    if j < k {
      PrefixMonotone(v, j, k - 1);
    }
  }
}
