/** What the spanning forest reads of a cluster: fees, sizes, and the reduced
    parents and children of each transaction. */
module Clusters {
  import opened FeeRates
  import opened SetSums

  datatype Cluster = Cluster(
    fees: seq<int>,
    sizes: seq<int>,
    parents: seq<set<nat>>,
    children: seq<set<nat>>,
    txs: set<nat>)

  ghost predicate ValidCluster(g: Cluster) {
    && |g.sizes| == |g.fees| && |g.parents| == |g.fees| && |g.children| == |g.fees|
    && Within(g.txs, |g.fees|)
    && (forall x :: x in g.txs ==> g.sizes[x] > 0 && g.parents[x] <= g.txs && g.children[x] <= g.txs)
    && forall x, y {:trigger x in g.parents[y]} {:trigger y in g.children[x]} ::
         x in g.txs && y in g.txs ==> (x in g.parents[y] <==> y in g.children[x])
  }

  /** The cluster upside down. Merging downward in `g` is merging upward in its
      mirror. */
  ghost function Mirror(g: Cluster): Cluster {
    Cluster(seq(|g.fees|, i requires 0 <= i < |g.fees| => -g.fees[i]), g.sizes, g.children, g.parents, g.txs)
  }

  lemma MirrorValid(g: Cluster)
    requires ValidCluster(g)
    ensures ValidCluster(Mirror(g))
  {
  }

  ghost function Rate(g: Cluster, S: set<nat>): FeeFrac
    requires ValidCluster(g) && S <= g.txs
  {
    FeeFrac(Sum(g.fees, S), Sum(g.sizes, S))
  }

  lemma RatePositive(g: Cluster, S: set<nat>)
    requires ValidCluster(g) && S <= g.txs
    ensures Rate(g, S).size >= |S|
  {
    SumPositive(g.sizes, S);
  }

  lemma RateUnion(g: Cluster, A: set<nat>, B: set<nat>)
    requires ValidCluster(g) && A <= g.txs && B <= g.txs && A !! B
    ensures Rate(g, A + B) == Rate(g, A).Plus(Rate(g, B))
  {
    SumUnion(g.fees, A, B);
    SumUnion(g.sizes, A, B);
  }

  lemma {:induction false} SumNegated(w: seq<int>, w': seq<int>, S: set<nat>)
    requires Within(S, |w|) && Within(S, |w'|)
    requires forall i :: i in S ==> w'[i] == -w[i]
    ensures Sum(w', S) == -Sum(w, S)
    decreases |S|
  {
    if S != {} {
      var x :| x in S;
      SumRemove(w, S, x);
      SumRemove(w', S, x);
      SumNegated(w, w', S - {x});
    }
  }

  lemma MirrorRate(g: Cluster, S: set<nat>)
    requires ValidCluster(g) && S <= g.txs
    ensures ValidCluster(Mirror(g)) && Rate(Mirror(g), S) == Rate(g, S).Neg()
  {
    SumNegated(g.fees, Mirror(g).fees, S);
  }

  /** How far each transaction is above the line of slope `slope`. */
  ghost function Weights(g: Cluster, slope: FeeFrac): (w: seq<int>)
    requires ValidCluster(g)
    ensures |w| == |g.fees|
  {
    seq(|g.fees|, i requires 0 <= i < |g.fees| => Cross(FeeFrac(g.fees[i], g.sizes[i]), slope))
  }

  lemma {:induction false} WeightsOf(g: Cluster, S: set<nat>, slope: FeeFrac)
    requires ValidCluster(g) && S <= g.txs
    ensures Within(S, |g.fees|) && Sum(Weights(g, slope), S) == Cross(Rate(g, S), slope)
    decreases |S|
  {
    if S != {} {
      var x :| x in S;
      SumRemove(Weights(g, slope), S, x);
      SumRemove(g.fees, S, x);
      SumRemove(g.sizes, S, x);
      WeightsOf(g, S - {x}, slope);
      CrossPlus(FeeFrac(g.fees[x], g.sizes[x]), Rate(g, S - {x}), slope);
    }
  }

  /** Everything that `X` depends on directly. */
  ghost function Up(g: Cluster, X: set<nat>): set<nat>
    requires ValidCluster(g) && X <= g.txs
  {
    set c, p | c in X && p in g.parents[c] :: p
  }

  /** `X` depends on `Y`. */
  ghost predicate Needs(g: Cluster, X: set<nat>, Y: set<nat>)
    requires ValidCluster(g) && X <= g.txs
  {
    exists c, p :: c in X && p in Y && p in g.parents[c]
  }

  lemma NeedsUnion(g: Cluster, A: set<nat>, B: set<nat>, Y: set<nat>)
    requires ValidCluster(g) && A <= g.txs && B <= g.txs && Y <= g.txs
    ensures Needs(g, A + B, Y) <==> Needs(g, A, Y) || Needs(g, B, Y)
    ensures Needs(g, Y, A + B) <==> Needs(g, Y, A) || Needs(g, Y, B)
  {
  }

  lemma MirrorNeeds(g: Cluster, X: set<nat>, Y: set<nat>)
    requires ValidCluster(g) && X <= g.txs && Y <= g.txs
    ensures ValidCluster(Mirror(g)) && (Needs(Mirror(g), X, Y) <==> Needs(g, Y, X))
  {
    if Needs(g, Y, X) {
      var c, p :| c in Y && p in X && p in g.parents[c];
      assert c in g.children[p];
    }
    if Needs(Mirror(g), X, Y) {
      var c, p :| c in X && p in Y && p in Mirror(g).parents[c];
      assert c in g.parents[p];
    }
  }
}
