/** Sizes of finite sets of naturals. */
module FiniteSets {

  function Upto(k: nat): set<nat> {
    if k == 0 then {} else Upto(k - 1) + {k - 1}
  }

  lemma {:induction false} UptoSize(k: nat)
    ensures |Upto(k)| == k
    ensures forall p: nat :: p in Upto(k) <==> p < k
  {
    if k > 0 {
      UptoSize(k - 1);
    }
  }

  lemma SubsetSize(a: set<nat>, b: set<nat>)
    requires a <= b
    ensures |a| <= |b|
    ensures |a| == |b| ==> a == b
  {
    assert b == a + (b - a);
  }

  function Members(ps: seq<nat>): set<nat> {
    set p | p in ps
  }

  lemma {:induction false} DistinctSize(ps: seq<nat>)
    requires forall i, j :: 0 <= i < j < |ps| ==> ps[i] != ps[j]
    ensures |Members(ps)| == |ps|
  {
    if ps == [] {
      assert Members(ps) == {};
    } else {
      var front, last := ps[..|ps| - 1], ps[|ps| - 1];
      DistinctSize(front);
      assert last !in Members(front);
      assert Members(ps) == Members(front) + {last};
    }
  }

  /** Two disjoint sets of numbers below n that have n members together hold all of them. */
  lemma TwoPartsCover(a: set<nat>, b: set<nat>, n: nat)
    requires a !! b && |a| + |b| == n && forall p: nat :: p in a || p in b ==> p < n
    ensures forall p: nat :: p < n ==> (p in a <==> p !in b)
  {
    UptoSize(n);
    assert |a + b| == |a| + |b|;
    SubsetSize(a + b, Upto(n));
  }
}
