/** Sets of transactions that have all ancestors of their members, and those that
    are worth the most along a slope. */
module ClosedSets {
  import opened ClusterGraphs
  import opened DepGraphs
  import opened FeeRates
  import opened MinimalChunks
  import opened SetSums

  ghost predicate Closed(g: Graph, S: set<nat>)
    requires ValidGraph(g)
  {
    S <= g.positions && forall x :: x in S ==> g.ancestors[x] <= S
  }

  lemma ClosedBoth(g: Graph, A: set<nat>, B: set<nat>)
    requires ValidGraph(g) && Closed(g, A) && Closed(g, B)
    ensures Closed(g, A + B) && Closed(g, A * B)
  {
  }

  /** How far a set is above the line of a slope. */
  ghost function Worth(g: Graph, S: set<nat>, slope: FeeFrac): int
    requires ValidGraph(g) && S <= g.positions
  {
    Cross(SetRate(g, S), slope)
  }

  lemma WorthUnion(g: Graph, A: set<nat>, B: set<nat>, slope: FeeFrac)
    requires ValidGraph(g) && A <= g.positions && B <= g.positions && A !! B
    ensures Worth(g, A + B, slope) == Worth(g, A, slope) + Worth(g, B, slope)
    ensures SetRate(g, A + B) == SetRate(g, A).Plus(SetRate(g, B))
  {
    SumUnion(g.fees, A, B);
    SumUnion(g.sizes, A, B);
    CrossPlus(SetRate(g, A), SetRate(g, B), slope);
  }

  lemma WorthParts(g: Graph, A: set<nat>, B: set<nat>, slope: FeeFrac)
    requires ValidGraph(g) && A <= g.positions && B <= g.positions
    ensures Worth(g, A, slope) == Worth(g, A * B, slope) + Worth(g, A - B, slope)
    ensures Worth(g, A + B, slope) == Worth(g, B, slope) + Worth(g, A - B, slope)
  {
    assert A * B + (A - B) == A && B + (A - B) == A + B;
    WorthUnion(g, A * B, A - B, slope);
    WorthUnion(g, B, A - B, slope);
  }

  lemma SizeNotEmpty(g: Graph, S: set<nat>)
    requires ValidGraph(g) && Sized(g) && S <= g.positions && S != {}
    ensures SetRate(g, S).size > 0
  {
    SumPositive(g.sizes, S);
  }

  /** No closed set is worth more. */
  ghost predicate Best(g: Graph, S: set<nat>, slope: FeeFrac)
    requires ValidGraph(g)
  {
    && Closed(g, S) && slope.size > 0
    && forall T: set<nat> :: Closed(g, T) ==> Worth(g, T, slope) <= Worth(g, S, slope)
  }

  lemma AboveBoth(x: FeeFrac, r': FeeFrac, r: FeeFrac)
    requires x.size > 0 && r'.size > 0 && r.size > 0 && Cross(x, r') >= 0 && Cross(r', r) > 0
    ensures Cross(x, r) > 0
  {
    CrossTrans(x, r', r);
  }

  /** What is best along a higher slope is within what is best along a lower one. */
  lemma HigherWithin(g: Graph, P: set<nat>, r': FeeFrac, S: set<nat>, r: FeeFrac)
    requires ValidGraph(g) && Sized(g) && Best(g, P, r') && Best(g, S, r) && Cross(r', r) > 0
    ensures P <= S
  {
    var X := P - S;
    ClosedBoth(g, P, S);
    WorthParts(g, P, S, r');
    WorthParts(g, P, S, r);
    if X != {} {
      SizeNotEmpty(g, X);
      AboveBoth(SetRate(g, X), r', r);
    }
  }

  lemma SlopesAgree(a: FeeFrac, b: FeeFrac, r': FeeFrac, r: FeeFrac)
    requires r'.size > 0 && r.size > 0 && Cross(r', r) == 0
    ensures Cross(a, r') <= Cross(b, r') ==> Cross(a, r) <= Cross(b, r)
  {
    CrossScale(a, r', r);
    CrossScale(b, r', r);
    var x, y := Cross(a, r'), Cross(b, r');
    if x <= y {
      Scales(x, y, r.size);
      assert Cross(a, r) * r'.size <= Cross(b, r) * r'.size;
      Unscales(Cross(a, r), Cross(b, r), r'.size);
    }
  }

  lemma Scales(x: int, y: int, k: nat)
    requires x <= y
    ensures x * k <= y * k
  {
  }

  lemma Unscales(x: int, y: int, k: nat)
    requires k > 0 && x * k <= y * k
    ensures x <= y
  {
    assert (x - y) * k == x * k - y * k;
    SignOfProduct(x - y, k);
  }

  lemma BestAlongSame(g: Graph, P: set<nat>, r': FeeFrac, r: FeeFrac)
    requires ValidGraph(g) && Best(g, P, r') && r.size > 0 && Cross(r', r) == 0
    ensures Best(g, P, r)
  {
    forall T: set<nat> | Closed(g, T)
      ensures Worth(g, T, r) <= Worth(g, P, r)
    {
      SlopesAgree(SetRate(g, T), SetRate(g, P), r', r);
    }
  }

  lemma BestCommon(g: Graph, P: set<nat>, S: set<nat>, r: FeeFrac)
    requires ValidGraph(g) && Best(g, P, r) && Best(g, S, r)
    ensures Worth(g, P * S, r) == Worth(g, P, r)
  {
    ClosedBoth(g, P, S);
    WorthParts(g, P, S, r);
  }

  /** Of what lies between two sets that are best, another one that is best has a
      part that is worth nothing. */
  lemma BestCutsEvenly(g: Graph, P: set<nat>, S: set<nat>, C: set<nat>, r: FeeFrac)
    requires ValidGraph(g) && Best(g, P, r) && Best(g, S, r) && Best(g, S + C, r) && S !! C
    ensures C <= g.positions && Worth(g, P * C, r) == 0
  {
    BestCommon(g, P, S, r);
    BestCommon(g, P, S + C, r);
    CommonWithBoth(g, P, S, C, r);
  }

  lemma CommonWithBoth(g: Graph, P: set<nat>, S: set<nat>, C: set<nat>, r: FeeFrac)
    requires ValidGraph(g) && P <= g.positions && S + C <= g.positions && S !! C
    ensures Worth(g, P * (S + C), r) == Worth(g, P * S, r) + Worth(g, P * C, r)
  {
    assert P * (S + C) == P * S + P * C;
    WorthUnion(g, P * S, P * C, r);
  }

  /** A set that is best along some slope has all of a chunk that cannot be split,
      or nothing: where the chunk lies between two sets that are best along its
      own feerate. */
  lemma NotCut(g: Graph, P: set<nat>, r': FeeFrac, S: set<nat>, C: set<nat>)
    requires ValidGraph(g) && Sized(g) && C <= g.positions && C != {} && S !! C && Indivisible(g, C)
    requires Best(g, P, r') && Best(g, S, SetRate(g, C)) && Best(g, S + C, SetRate(g, C))
    ensures P * C == {} || P * C == C
  {
    var r, X := SetRate(g, C), P * C;
    CrossFlip(r, r');
    if Cross(r', r) > 0 {
      HigherWithin(g, P, r', S, r);
    } else if Cross(r', r) < 0 {
      HigherWithin(g, S + C, r, P, r');
    } else {
      BestAlongSame(g, P, r', r);
      BestCutsEvenly(g, P, S, C, r);
      if X != {} && X != C {
        PartGoesFirst(g, P, C);
      }
    }
  }

  lemma PartGoesFirst(g: Graph, P: set<nat>, C: set<nat>)
    requires ValidGraph(g) && C <= g.positions && Closed(g, P) && P * C != {} && P * C != C && Indivisible(g, C)
    ensures Below(SetRate(g, P * C), SetRate(g, C))
  {
    assert GoesFirst(g, C, P * C);
  }
}
