/** Why a forest in which no top set beats its chunk is optimal, and what
    splitting chunks into parts of equal feerate keeps. */
module Optimality {
  import opened Clusters
  import opened FeeRates
  import opened Forests
  import opened Improving
  import opened SetSums
  import opened Trees

  /** No top set of the chunk `k` has a higher feerate than the chunk. */
  ghost predicate Unbeaten(g: Cluster, t: Forest, k: nat)
    requires ValidForest(g, t) && k in t
  {
    NoneBeats(t[k], Weights(g, RateOf(g, t, k)))
  }

  ghost predicate Optimal(g: Cluster, t: Forest)
    requires ValidForest(g, t)
  {
    forall k :: k in t ==> Unbeaten(g, t, k)
  }

  lemma ValidIsChunked(g: Cluster, t: Forest)
    requires ValidForest(g, t)
    ensures Chunked(g, t)
  {
  }

  /** The same, in terms of feerates. */
  lemma UnbeatenTop(g: Cluster, t: Forest, k: nat, d: Dep)
    requires ValidForest(g, t) && k in t && d in t[k].tops
    ensures t[k].tops[d] <= g.txs
    ensures Sum(Weights(g, RateOf(g, t, k)), t[k].tops[d]) == Cross(Rate(g, t[k].tops[d]), RateOf(g, t, k))
  {
    assert ValidTree(t[k]) && IsCut(t[k], d, t[k].tops[d]);
    WeightsOf(g, t[k].tops[d], RateOf(g, t, k));
  }

  lemma UnbeatenByTops(g: Cluster, t: Forest, k: nat)
    requires ValidForest(g, t) && k in t
    requires forall d :: d in t[k].tops ==> t[k].tops[d] <= g.txs && AtMost(Rate(g, t[k].tops[d]), RateOf(g, t, k))
    ensures Unbeaten(g, t, k)
  {
    forall d | d in t[k].tops
      ensures t[k].tops[d] <= t[k].txs && Sum(Weights(g, RateOf(g, t, k)), t[k].tops[d]) <= 0
    {
      assert ValidTree(t[k]) && IsCut(t[k], d, t[k].tops[d]);
      UnbeatenTop(g, t, k, d);
    }
  }

  lemma WholeWeighsNothing(g: Cluster, t: Forest, k: nat)
    requires ValidForest(g, t) && k in t
    ensures Sum(Weights(g, RateOf(g, t, k)), t[k].txs) == 0
  {
    WeightsOf(g, t[k].txs, RateOf(g, t, k));
    CrossFlip(RateOf(g, t, k), RateOf(g, t, k));
  }

  lemma SameUnbeaten(g: Cluster, t0: Forest, t: Forest, i: nat)
    requires ValidForest(g, t0) && ValidForest(g, t) && i in t0 && i in t && t[i] == t0[i]
    ensures Unbeaten(g, t, i) <==> Unbeaten(g, t0, i)
  {
  }

  /** The chunks that an improvement leaves as they are stay unbeaten. */
  lemma KeptUnbeaten(g: Cluster, t0: Forest, queued0: set<nat>, k: nat, t: Forest, queued: set<nat>)
    requires ValidForest(g, t0) && ValidForest(g, t) && OthersKept(t0, k, t, queued) && queued0 <= queued
    requires forall i :: i in t0 && i !in queued0 && i != k ==> Unbeaten(g, t0, i)
    ensures forall i :: i in t && i !in queued ==> Unbeaten(g, t, i)
  {
    forall i | i in t && i !in queued
      ensures Unbeaten(g, t, i)
    {
      SameUnbeaten(g, t0, t, i);
    }
  }

  /** A set of transactions with every parent of each. */
  ghost predicate ClosedIn(g: Cluster, X: set<nat>)
    requires ValidCluster(g)
  {
    X <= g.txs && forall c :: c in X ==> g.parents[c] <= X
  }

  /** A closed set's share of an unbeaten chunk is worth no more than the
      chunk, or nothing. */
  lemma ShareOfChunk(g: Cluster, t: Forest, k: nat, X: set<nat>, slope: FeeFrac)
    requires ValidForest(g, t) && k in t && Unbeaten(g, t, k) && ClosedIn(g, X) && slope.size > 0
    ensures Cross(Rate(g, X * t[k].txs), slope) <= Pos(Cross(RateOf(g, t, k), slope))
  {
    var c, part := RateOf(g, t, k), X * t[k].txs;
    assert UpClosed(part, t[k]) by {
      forall d | d in t[k].tops && d.child in part
        ensures d.parent in part
      {
        assert ValidTree(t[k]) && d.parent in g.parents[d.child];
      }
    }
    WholeWeighsNothing(g, t, k);
    Certificate(t[k], Weights(g, c), part);
    WeightsOf(g, part, c);
    RatePositive(g, part);
    SumSplit(g.sizes, t[k].txs, part);
    RatePositive(g, t[k].txs - part);
    PartOfWhole(Rate(g, part), c, slope);
  }

  ghost function TxsOf(t: Forest, S: set<nat>): set<nat>
    requires S <= t.Keys
  {
    set k, x | k in S && x in t[k].txs :: x
  }

  lemma TxsAdd(t: Forest, S: set<nat>, k: nat)
    requires S <= t.Keys && k in t
    ensures TxsOf(t, S + {k}) == TxsOf(t, S) + t[k].txs
  {
  }

  lemma {:induction false} SharesOfChunks(g: Cluster, t: Forest, S: set<nat>, X: set<nat>, slope: FeeFrac)
    requires ValidForest(g, t) && Optimal(g, t) && ClosedIn(g, X) && slope.size > 0 && S <= t.Keys
    ensures Cross(Rate(g, X * TxsOf(t, S)), slope) <= GainOver(g, t, S, slope)
    decreases |S|
  {
    if S == {} {
      assert X * TxsOf(t, S) == {};
    } else {
      var k :| k in S;
      var rest := X * TxsOf(t, S - {k});
      var part := X * t[k].txs;
      assert X * TxsOf(t, S) == rest + part;
      assert rest !! part by {
        forall j | j in S - {k}
          ensures t[j].txs !! t[k].txs
        {
        }
      }
      SharesOfChunks(g, t, S - {k}, X, slope);
      ShareOfChunk(g, t, k, X, slope);
      RateUnion(g, rest, part);
      CrossPlus(Rate(g, rest), Rate(g, part), slope);
      GainTake(g, t, S, slope, k);
    }
  }

  /** The optimality certificate: where no top set beats its chunk, no closed
      set of transactions is worth more than the chunks gain. */
  lemma OptimalBound(g: Cluster, t: Forest, X: set<nat>, slope: FeeFrac)
    requires ValidForest(g, t) && Optimal(g, t) && ClosedIn(g, X) && slope.size > 0
    requires TxsOf(t, t.Keys) == g.txs
    ensures Cross(Rate(g, X), slope) <= GainOver(g, t, t.Keys, slope)
  {
    SharesOfChunks(g, t, t.Keys, X, slope);
    assert X * g.txs == X;
  }

  // --- the order of the chunks ---

  /** No chunk depends on one with a lower feerate. */
  ghost predicate WeaklyTopological(g: Cluster, t: Forest)
    requires Chunked(g, t)
  {
    forall x, y {:trigger DependsOn(g, t, x, y)} ::
      x in t && y in t && x != y && DependsOn(g, t, x, y) ==> AtMost(RateOf(g, t, x), RateOf(g, t, y))
  }

  /** `x` depends on no other chunk in `U`. */
  ghost predicate FirstIn(g: Cluster, t: Forest, U: set<nat>, x: nat)
    requires Chunked(g, t) && U <= t.Keys
  {
    x in U && forall y {:trigger DependsOn(g, t, x, y)} :: y in U && y != x ==> !DependsOn(g, t, x, y)
  }

  /** There is no cycle: every set of chunks has one that can go first. */
  ghost predicate AcyclicChunks(g: Cluster, t: Forest)
    requires Chunked(g, t)
  {
    forall U: set<nat> :: U <= t.Keys && U != {} ==> exists x :: FirstIn(g, t, U, x)
  }

  lemma {:induction false} HighestFeerate(g: Cluster, t: Forest, U: set<nat>) returns (x: nat)
    requires Chunked(g, t) && U <= t.Keys && U != {}
    ensures x in U && forall y :: y in U ==> AtMost(RateOf(g, t, y), RateOf(g, t, x))
    decreases |U|
  {
    x :| x in U;
    CrossFlip(RateOf(g, t, x), RateOf(g, t, x));
    if U != {x} {
      assert U - {x} + {x} == U;
      var z := HighestFeerate(g, t, U - {x});
      CrossFlip(RateOf(g, t, x), RateOf(g, t, z));
      CrossFlip(RateOf(g, t, z), RateOf(g, t, z));
      if AtMost(RateOf(g, t, x), RateOf(g, t, z)) {
        x := z;
      } else {
        forall y | y in U && y != x
          ensures AtMost(RateOf(g, t, y), RateOf(g, t, x))
        {
          Chain(RateOf(g, t, y), RateOf(g, t, z), RateOf(g, t, x));
        }
      }
    }
  }

  /** Strict dependencies have no cycles. */
  lemma TopologicalIsAcyclic(g: Cluster, t: Forest)
    requires Chunked(g, t) && Topological(g, t)
    ensures WeaklyTopological(g, t) && AcyclicChunks(g, t)
  {
    forall U: set<nat> | U <= t.Keys && U != {}
      ensures exists x :: FirstIn(g, t, U, x)
    {
      var x := HighestFeerate(g, t, U);
      forall y | y in U && y != x
        ensures !DependsOn(g, t, x, y)
      {
        NotBoth(RateOf(g, t, x), RateOf(g, t, y));
      }
      assert FirstIn(g, t, U, x);
    }
    forall x, y | x in t && y in t && x != y && DependsOn(g, t, x, y)
      ensures AtMost(RateOf(g, t, x), RateOf(g, t, y))
    {
      NotBoth(RateOf(g, t, x), RateOf(g, t, y));
    }
  }

  // --- splitting into equal parts ---

  /** A cut of `k` into two parts of its own feerate, the top not depending on
      the bottom. */
  ghost predicate EvenCut(g: Cluster, t0: Forest, k: nat, t1: Forest, a: nat) {
    && Cut(g, t0, k, t1, a) && Chunked(g, t1)
    && Cross(RateOf(g, t1, a), RateOf(g, t0, k)) == 0
    && !DependsOn(g, t1, a, k)
  }

  lemma EvenRates(g: Cluster, t0: Forest, k: nat, t1: Forest, a: nat, z: FeeFrac)
    requires EvenCut(g, t0, k, t1, a) && z.size > 0
    ensures AtMost(z, RateOf(g, t1, a)) <==> AtMost(z, RateOf(g, t0, k))
    ensures AtMost(z, RateOf(g, t1, k)) <==> AtMost(z, RateOf(g, t0, k))
    ensures AtMost(RateOf(g, t1, a), z) <==> AtMost(RateOf(g, t0, k), z)
    ensures AtMost(RateOf(g, t1, k), z) <==> AtMost(RateOf(g, t0, k), z)
  {
    CutChunked(g, t0, k, t1, a);
    var c, fa, fb := RateOf(g, t0, k), RateOf(g, t1, a), RateOf(g, t1, k);
    CrossPlus(fa, fb, c);
    CrossFlip(c, c);
    SameLevel(c, fa, z);
    SameLevel(c, fb, z);
  }

  lemma SameLevel(c: FeeFrac, f: FeeFrac, z: FeeFrac)
    requires c.size > 0 && f.size > 0 && z.size > 0 && Cross(f, c) == 0
    ensures AtMost(z, f) <==> AtMost(z, c)
    ensures AtMost(f, z) <==> AtMost(c, z)
  {
    CrossFlip(c, f);
    if AtMost(z, f) { Chain(z, f, c); }
    if AtMost(z, c) { Chain(z, c, f); }
    if AtMost(f, z) { Chain(c, f, z); }
    if AtMost(c, z) { Chain(f, c, z); }
  }

  lemma EvenCutPair(g: Cluster, t0: Forest, k: nat, t1: Forest, a: nat, x: nat, y: nat)
    requires EvenCut(g, t0, k, t1, a) && WeaklyTopological(g, t0)
    requires x in t1 && y in t1 && x != y && DependsOn(g, t1, x, y)
    ensures AtMost(RateOf(g, t1, x), RateOf(g, t1, y))
  {
    EvenRates(g, t0, k, t1, a, RateOf(g, t1, x));
    EvenRates(g, t0, k, t1, a, RateOf(g, t1, y));
    var xIn, yIn := x == a || x == k, y == a || y == k;
    if xIn && yIn {
      EvenRates(g, t0, k, t1, a, RateOf(g, t0, k));
      CrossFlip(RateOf(g, t0, k), RateOf(g, t0, k));
    } else if xIn {
      CutDepends(g, t0, k, t1, a, y);
    } else if yIn {
      CutDepends(g, t0, k, t1, a, x);
    } else {
      assert t1[x] == t0[x] && t1[y] == t0[y];
      assert DependsOn(g, t0, x, y);
    }
  }

  lemma EvenCutWeakly(g: Cluster, t0: Forest, k: nat, t1: Forest, a: nat)
    requires EvenCut(g, t0, k, t1, a) && WeaklyTopological(g, t0)
    ensures WeaklyTopological(g, t1)
  {
    forall x, y | x in t1 && y in t1 && x != y && DependsOn(g, t1, x, y)
      ensures AtMost(RateOf(g, t1, x), RateOf(g, t1, y))
    {
      EvenCutPair(g, t0, k, t1, a, x, y);
    }
  }

  /** The chunk that a chunk of the cut forest was before. */
  ghost function Uncut(U: set<nat>, k: nat, a: nat): set<nat> {
    if a in U then U - {a} + {k} else U
  }

  lemma UncutChunks(before: set<nat>, after: set<nat>, k: nat, a: nat, U: set<nat>)
    requires k in before && after == before + {a} && U <= after && U != {}
    ensures Uncut(U, k, a) <= before && Uncut(U, k, a) != {}
  {
    var y :| y in U;
    assert (if y == a then k else y) in Uncut(U, k, a);
  }

  lemma EvenCutFirst(g: Cluster, t0: Forest, k: nat, t1: Forest, a: nat, U: set<nat>) returns (x': nat)
    requires EvenCut(g, t0, k, t1, a) && AcyclicChunks(g, t0) && U <= t1.Keys && U != {}
    ensures FirstIn(g, t1, U, x')
  {
    UncutChunks(t0.Keys, t1.Keys, k, a, U);
    var x :| FirstIn(g, t0, Uncut(U, k, a), x);
    x' := Part(U, k, a, x);
    FirstOfCut(g, t0, k, t1, a, U, x);
  }

  /** The part of `x` in `U` that can go first. */
  ghost function Part(U: set<nat>, k: nat, a: nat, x: nat): nat {
    if x == k && a in U then a else x
  }

  lemma FirstOfCut(g: Cluster, t0: Forest, k: nat, t1: Forest, a: nat, U: set<nat>, x: nat)
    requires EvenCut(g, t0, k, t1, a) && U <= t1.Keys && Uncut(U, k, a) <= t0.Keys
    requires FirstIn(g, t0, Uncut(U, k, a), x)
    ensures FirstIn(g, t1, U, Part(U, k, a, x))
  {
    forall y | y in U && y != Part(U, k, a, x)
      ensures !DependsOn(g, t1, Part(U, k, a, x), y)
    {
      FirstAfterCut(g, t0, k, t1, a, U, x, y);
    }
  }

  lemma EvenCutAcyclic(g: Cluster, t0: Forest, k: nat, t1: Forest, a: nat)
    requires EvenCut(g, t0, k, t1, a) && AcyclicChunks(g, t0)
    ensures AcyclicChunks(g, t1)
  {
    forall U: set<nat> | U <= t1.Keys && U != {}
      ensures exists x :: FirstIn(g, t1, U, x)
    {
      var x := EvenCutFirst(g, t0, k, t1, a, U);
    }
  }

  lemma FirstAfterCut(g: Cluster, t0: Forest, k: nat, t1: Forest, a: nat, U: set<nat>, x: nat, y: nat)
    requires EvenCut(g, t0, k, t1, a) && U <= t1.Keys && Uncut(U, k, a) <= t0.Keys
    requires FirstIn(g, t0, Uncut(U, k, a), x) && y in U
    requires y != Part(U, k, a, x)
    ensures Part(U, k, a, x) in t1 && !DependsOn(g, t1, Part(U, k, a, x), y)
  {
    if x == k {
      if y != a && y != k {
        CutDepends(g, t0, k, t1, a, y);
      }
    } else {
      CutDepends(g, t0, k, t1, a, x);
      if y != a && y != k {
        assert t1[x] == t0[x] && t1[y] == t0[y];
        assert y in Uncut(U, k, a);
        assert !DependsOn(g, t0, x, y);
      } else {
        assert k in Uncut(U, k, a);
      }
    }
  }

  /** The diagram does not change. */
  lemma EvenCutGain(g: Cluster, t0: Forest, k: nat, t1: Forest, a: nat, slope: FeeFrac)
    requires EvenCut(g, t0, k, t1, a) && slope.size > 0
    ensures GainOver(g, t1, t1.Keys, slope) == GainOver(g, t0, t0.Keys, slope)
  {
    CutChunked(g, t0, k, t1, a);
    CutOthers(g, t0, k, t1, a);
    GainTake(g, t0, t0.Keys, slope, k);
    GainTake(g, t1, t1.Keys, slope, k);
    GainTake(g, t1, t1.Keys - {k}, slope, a);
    GainCongruent(g, t0, t1, t0.Keys - {k}, slope);
    var fa, fb := RateOf(g, t1, a), RateOf(g, t1, k);
    CrossPlus(fa, fb, slope);
    EvenRates(g, t0, k, t1, a, slope);
    CrossFlip(fa, slope);
    CrossFlip(fb, slope);
    CrossFlip(RateOf(g, t0, k), slope);
  }
}
