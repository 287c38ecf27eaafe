/** What it means that a chunk cannot be split, and why a scan of its active
    dependencies tells. */
module Minimality {
  import opened Clusters
  import opened FeeRates
  import opened Forests
  import opened Optimality
  import opened SetSums
  import opened Trees

  // --- one tree ---

  /** A part that is closed under the dependencies weighs no more than the top
      set of any dependency that leaves it. */
  lemma CrossingTop(t: Tree, w: seq<int>, X: set<nat>, d: Dep)
    requires ValidTree(t) && NoneBeats(t, w) && Sum(w, t.txs) == 0 && X <= t.txs && UpClosed(X, t)
    requires d in t.tops && d.parent in X && d.child !in X
    ensures Sum(w, X) <= Sum(w, t.tops[d])
  {
    var (a, b) := Split(t, d);
    SplitValid(t, d);
    SplitWeights(t, w, d);
    SplitPart(t, w, d, X);
    PartIsUpClosed(t, d, X);
    Certificate(a, Lift(w, d.parent, b.txs), X * a.txs);
    Certificate(b, Lift(w, d.child, a.txs), X * b.txs);
    CrossingSums(w, a.txs, b.txs, X, d);
  }

  /** The sums in `CrossingTop`. */
  lemma CrossingSums(w: seq<int>, a: set<nat>, b: set<nat>, X: set<nat>, d: Dep)
    requires Within(a, |w|) && Within(b, |w|) && a !! b && d.parent in a && d.child in b
    requires Sum(w, a + b) == 0 && X <= a + b && d.parent in X && d.child !in X
    requires Sum(Lift(w, d.parent, b), X * a) <= 0 && Sum(Lift(w, d.child, a), X * b) <= 0
    ensures Within(X, |w|) && Sum(w, X) <= Sum(w, a)
  {
    LiftedSum(w, d.parent, b, X * a);
    LiftedSum(w, d.child, a, X * b);
    SumUnion(w, a, b);
    SumParts(w, a, b, X);
  }

  lemma LiftedSum(w: seq<int>, at: nat, rest: set<nat>, S: set<nat>)
    requires at < |w| && Within(rest, |w|) && Within(S, |w|)
    ensures Sum(Lift(w, at, rest), S) == Sum(w, S) + if at in S then Sum(w, rest) else 0
  {
    SumUpdate(w, at, Sum(w, rest), S);
  }

  lemma SumParts(w: seq<int>, a: set<nat>, b: set<nat>, X: set<nat>)
    requires Within(a, |w|) && Within(b, |w|) && a !! b && X <= a + b
    ensures Within(X, |w|) && Sum(w, X) == Sum(w, X * a) + Sum(w, X * b)
  {
    assert X == X * a + X * b;
    SumUnion(w, X * a, X * b);
  }

  lemma PartIsUpClosed(t: Tree, d: Dep, X: set<nat>)
    requires ValidTree(t) && d in t.tops && UpClosed(X, t)
    ensures UpClosed(X * Split(t, d).0.txs, Split(t, d).0) && UpClosed(X * Split(t, d).1.txs, Split(t, d).1)
  {
    SplitValid(t, d);
  }

  /** A dependency leaves every part that is closed and not the whole. */
  lemma SomeCrossing(t: Tree, X: set<nat>) returns (d: Dep)
    requires ValidTree(t) && X <= t.txs && UpClosed(X, t) && X != {} && X != t.txs
    ensures d in t.tops && d.parent in X && d.child !in X
  {
    assert !Closed(X, t);
    d :| d in t.tops && !(d.parent in X <==> d.child in X);
  }

  /** And so that `pivot` is in its top set where it is in the part. */
  lemma {:induction false} CrossingAround(t: Tree, X: set<nat>, pivot: nat) returns (d: Dep)
    requires ValidTree(t) && X <= t.txs && UpClosed(X, t) && X != {} && X != t.txs && pivot in t.txs
    ensures d in t.tops && d.parent in X && d.child !in X && (pivot in t.tops[d] <==> pivot in X)
    decreases |t.txs|
  {
    d := SomeCrossing(t, X);
    if (pivot in t.tops[d]) != (pivot in X) {
      var (a, b) := Split(t, d);
      SplitValid(t, d);
      PartIsUpClosed(t, d, X);
      SmallerParts(a.txs, b.txs, t.txs);
      assert IsCut(t, d, t.tops[d]);
      if pivot in X {
        assert pivot in X * b.txs && d.child in b.txs && d.child !in X * b.txs;
        d := CrossingAround(b, X * b.txs, pivot);
      } else {
        assert pivot in a.txs && pivot !in X * a.txs && d.parent in X * a.txs;
        d := CrossingAround(a, X * a.txs, pivot);
      }
    }
  }

  // --- one chunk ---

  /** A part of `C` that has every parent in `C` of each. */
  ghost predicate ClosedWithin(g: Cluster, C: set<nat>, X: set<nat>)
    requires ValidCluster(g) && C <= g.txs
  {
    X <= C && forall c :: c in X ==> g.parents[c] * C <= X
  }

  /** `C` could be split, with `X` first: that part is not below the whole. */
  ghost predicate EvenPart(g: Cluster, C: set<nat>, X: set<nat>)
    requires ValidCluster(g) && C <= g.txs
  {
    ClosedWithin(g, C, X) && X != {} && X != C && !Below(Rate(g, X), Rate(g, C))
  }

  /** `C` cannot be split: what could go first is always below the whole. */
  ghost predicate MinimalSet(g: Cluster, C: set<nat>)
    requires ValidCluster(g) && C <= g.txs
  {
    forall X: set<nat> :: !EvenPart(g, C, X)
  }

  /** `C` cannot be split into two parts with `pivot` in the first, or in the
      second. */
  ghost predicate NoEvenPart(g: Cluster, C: set<nat>, pivot: nat, inFirst: bool)
    requires ValidCluster(g) && C <= g.txs
  {
    forall X: set<nat> :: EvenPart(g, C, X) ==> (pivot in X) != inFirst
  }

  lemma NeitherSide(g: Cluster, C: set<nat>, pivot: nat, side: bool)
    requires ValidCluster(g) && C <= g.txs && NoEvenPart(g, C, pivot, side) && NoEvenPart(g, C, pivot, !side)
    ensures MinimalSet(g, C)
  {
  }

  /** Where a chunk that no top set beats could be split, a top set is not below
      it, and has the pivot where the first part has it. */
  lemma EvenPartHasTop(g: Cluster, t: Forest, k: nat, X: set<nat>, pivot: nat) returns (d: Dep)
    requires ValidForest(g, t) && k in t && t[k].txs <= g.txs && Unbeaten(g, t, k)
    requires EvenPart(g, t[k].txs, X) && pivot in t[k].txs
    ensures d in t[k].tops && t[k].tops[d] <= g.txs && !Below(Rate(g, t[k].tops[d]), RateOf(g, t, k))
    ensures pivot in t[k].tops[d] <==> pivot in X
  {
    var w := Weights(g, RateOf(g, t, k));
    ClosedIsUpClosed(g, t, k, X);
    WholeWeighsNothing(g, t, k);
    d := CrossingAround(t[k], X, pivot);
    CrossingTop(t[k], w, X, d);
    UnbeatenTop(g, t, k, d);
    WeightsOf(g, X, RateOf(g, t, k));
  }

  lemma ClosedIsUpClosed(g: Cluster, t: Forest, k: nat, X: set<nat>)
    requires ValidForest(g, t) && k in t && t[k].txs <= g.txs && ClosedWithin(g, t[k].txs, X)
    ensures UpClosed(X, t[k]) && ValidTree(t[k])
  {
    assert ValidTree(t[k]);
    forall d | d in t[k].tops && d.child in X
      ensures d.parent in X
    {
      assert d.parent in g.parents[d.child] * t[k].txs;
    }
  }

  /** All top sets are below a chunk that cannot be split. */
  lemma NoEvenTop(g: Cluster, t: Forest, k: nat)
    requires ValidForest(g, t) && k in t && t[k].txs <= g.txs && Unbeaten(g, t, k)
    requires forall d :: d in t[k].tops ==> t[k].tops[d] <= g.txs && Below(Rate(g, t[k].tops[d]), RateOf(g, t, k))
    ensures MinimalSet(g, t[k].txs)
  {
    forall X: set<nat> | EvenPart(g, t[k].txs, X)
      ensures false
    {
      var pivot :| pivot in X;
      var d := EvenPartHasTop(g, t, k, X, pivot);
    }
  }

  /** No top set with the pivot is even, or none without it. */
  lemma NoEvenTopAround(g: Cluster, t: Forest, k: nat, pivot: nat, inFirst: bool)
    requires ValidForest(g, t) && k in t && t[k].txs <= g.txs && Unbeaten(g, t, k) && pivot in t[k].txs
    requires forall d :: d in t[k].tops && t[k].tops[d] <= g.txs && (pivot in t[k].tops[d]) == inFirst ==>
               Below(Rate(g, t[k].tops[d]), RateOf(g, t, k))
    ensures NoEvenPart(g, t[k].txs, pivot, inFirst)
  {
    forall X: set<nat> | EvenPart(g, t[k].txs, X)
      ensures (pivot in X) != inFirst
    {
      var d := EvenPartHasTop(g, t, k, X, pivot);
    }
  }

  // --- splitting ---

  /** What is not below a part of the whole's own feerate is not below the
      whole. */
  lemma EvenInWhole(g: Cluster, A: set<nat>, C: set<nat>, X: set<nat>)
    requires ValidCluster(g) && A != {} && A <= C && C <= g.txs && X <= A && X != {}
    requires Cross(Rate(g, A), Rate(g, C)) == 0 && !Below(Rate(g, X), Rate(g, A))
    ensures !Below(Rate(g, X), Rate(g, C))
  {
    RatePositive(g, A);
    RatePositive(g, C);
    RatePositive(g, X);
    CrossFlip(Rate(g, X), Rate(g, A));
    CrossFlip(Rate(g, X), Rate(g, C));
    SameLevel(Rate(g, C), Rate(g, A), Rate(g, X));
  }

  /** A chunk with the parts `A` and `B`, of equal feerate, `A` not depending on
      `B`. */
  ghost predicate EvenParts(g: Cluster, C: set<nat>, A: set<nat>, B: set<nat>) {
    && ValidCluster(g) && C <= g.txs && A + B == C && A !! B && A != {} && B != {}
    && Cross(Rate(g, A), Rate(g, C)) == 0 && Cross(Rate(g, B), Rate(g, C)) == 0 && !Needs(g, A, B)
  }

  lemma FirstPartOf(g: Cluster, C: set<nat>, A: set<nat>, B: set<nat>, X: set<nat>)
    requires EvenParts(g, C, A, B) && EvenPart(g, A, X)
    ensures EvenPart(g, C, X)
  {
    EvenInWhole(g, A, C, X);
    forall c | c in X
      ensures g.parents[c] * C <= X
    {
      ParentsInFirst(g, C, A, B, c);
      assert g.parents[c] * A <= X;
    }
  }

  lemma ParentsInFirst(g: Cluster, C: set<nat>, A: set<nat>, B: set<nat>, c: nat)
    requires EvenParts(g, C, A, B) && c in A
    ensures c in g.txs && g.parents[c] * C <= A
  {
  }

  lemma SecondPartOf(g: Cluster, C: set<nat>, A: set<nat>, B: set<nat>, X: set<nat>)
    requires EvenParts(g, C, A, B) && EvenPart(g, B, X)
    ensures EvenPart(g, C, A + X)
  {
    EvenInWhole(g, B, C, X);
    RateUnion(g, A, X);
    CrossPlus(Rate(g, A), Rate(g, X), Rate(g, C));
    var y :| y in B && y !in X;
    assert y !in A + X;
    forall c | c in A + X
      ensures g.parents[c] * C <= A + X
    {
      if c in A {
        ParentsInFirst(g, C, A, B, c);
      } else {
        assert g.parents[c] * B <= X;
      }
    }
  }

  /** Once the pivot cannot be in the first part of a chunk, it cannot be in the
      first part of what it stays in as the second part; and the other way. */
  lemma StillNoEvenPart(g: Cluster, C: set<nat>, A: set<nat>, B: set<nat>, pivot: nat, inFirst: bool)
    requires EvenParts(g, C, A, B) && pivot in (if inFirst then B else A) && NoEvenPart(g, C, pivot, inFirst)
    ensures NoEvenPart(g, if inFirst then B else A, pivot, inFirst)
  {
    if inFirst {
      forall X: set<nat> | EvenPart(g, B, X)
        ensures pivot !in X
      {
        SecondPartOf(g, C, A, B, X);
      }
    } else {
      forall X: set<nat> | EvenPart(g, A, X)
        ensures pivot in X
      {
        FirstPartOf(g, C, A, B, X);
      }
    }
  }
}
