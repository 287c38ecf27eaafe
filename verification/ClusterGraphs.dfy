/** What the spanning forest reads of a `DepGraph`: its reduced parents and
    children. An order keeps ancestors first exactly when it keeps these parents
    first. */
module ClusterGraphs {
  import opened Clusters
  import opened DepGraphs
  import opened FeeRates
  import opened Orders
  import opened Sequences
  import C = Chunking
  import D = Diagrams

  ghost predicate Sized(g: Graph)
    requires ValidGraph(g)
  {
    forall i :: i in g.positions ==> g.sizes[i] > 0
  }

  ghost function ParentRow(g: Graph, i: nat): set<nat>
    requires ValidGraph(g)
  {
    if i in g.positions then Parents(g, i) else {}
  }

  ghost function ChildRow(g: Graph, i: nat): set<nat>
    requires ValidGraph(g)
  {
    set c | c in g.positions && i in Parents(g, c)
  }

  ghost function ClusterOf(g: Graph): (r: Cluster)
    requires ValidGraph(g)
    ensures |r.parents| == |g.fees| && |r.children| == |g.fees|
  {
    Cluster(g.fees, g.sizes,
            seq(|g.fees|, i requires 0 <= i < |g.fees| => ParentRow(g, i)),
            seq(|g.fees|, i requires 0 <= i < |g.fees| => ChildRow(g, i)),
            g.positions)
  }

  /** The rows of the transactions in `done`, and the children that are there. */
  ghost predicate RowsOf(g: Graph, done: set<nat>, parents: seq<set<nat>>, children: seq<set<nat>>)
    requires ValidGraph(g)
  {
    && |parents| == |g.fees| && |children| == |g.fees|
    && forall i :: 0 <= i < |g.fees| ==>
         && parents[i] == (if i in done then ParentRow(g, i) else {})
         && children[i] == ChildRow(g, i) * done
  }

  lemma RowsNext(g: Graph, done: set<nat>, parents: seq<set<nat>>, children: seq<set<nat>>, x: nat,
                 children': seq<set<nat>>)
    requires ValidGraph(g) && RowsOf(g, done, parents, children) && x in g.positions && |children'| == |children|
    requires forall i :: 0 <= i < |children| ==>
               children'[i] == if i in Parents(g, x) then children[i] + {x} else children[i]
    ensures RowsOf(g, done + {x}, parents[x := Parents(g, x)], children')
  {
    forall i | 0 <= i < |g.fees|
      ensures children'[i] == ChildRow(g, i) * (done + {x})
    {
      assert children[i] == ChildRow(g, i) * done;
      assert x in ChildRow(g, i) <==> i in Parents(g, x);
    }
  }

  lemma AllRows(g: Graph, parents: seq<set<nat>>, children: seq<set<nat>>)
    requires ValidGraph(g) && RowsOf(g, g.positions, parents, children)
    ensures parents == ClusterOf(g).parents && children == ClusterOf(g).children
  {
    forall i | 0 <= i < |g.fees|
      ensures children[i] == ChildRow(g, i)
    {
      assert ChildRow(g, i) * g.positions == ChildRow(g, i);
    }
  }

  lemma ClusterOfValid(g: Graph)
    requires ValidGraph(g) && Sized(g)
    ensures ValidCluster(ClusterOf(g))
  {
    forall i | i in g.positions
      ensures ParentRow(g, i) <= g.positions && ChildRow(g, i) <= g.positions
    {
    }
  }

  /** Every transaction comes after all of its ancestors. */
  ghost predicate AncestorsFirst(g: Graph, order: seq<nat>)
    requires ValidGraph(g)
  {
    forall i :: 0 <= i < |order| ==> order[i] in g.positions && g.ancestors[order[i]] <= Elements(order[..i + 1])
  }

  /** Each transaction once, ancestors first. */
  ghost predicate IsLinearization(g: Graph, order: seq<nat>)
    requires ValidGraph(g)
  {
    Distinct(order) && AncestorsFirst(g, order) && Elements(order) == g.positions
  }

  /** Along every slope, some prefix of `a` is worth as much as any of `b`. */
  ghost predicate NeverWorse(g: Graph, a: seq<nat>, b: seq<nat>) {
    && C.Priced(g.fees, g.sizes, a) && C.Priced(g.fees, g.sizes, b)
    && forall slope: FeeFrac :: slope.size > 0 ==>
         D.Peak(C.Rates(g.fees, g.sizes, a), slope) >= D.Peak(C.Rates(g.fees, g.sizes, b), slope)
  }

  /** All ancestors are before it, where all parents are, and theirs too. */
  lemma {:induction false} AncestorsBefore(g: Graph, order: seq<nat>, i: nat, a: nat)
    requires ValidGraph(g) && Acyclic(g) && Sized(g)
    requires ValidCluster(ClusterOf(g)) && ParentsFirst(ClusterOf(g), order)
    requires i < |order| && a in g.ancestors[order[i]]
    ensures a in Elements(order[..i + 1])
    decreases i
  {
    var x := order[i];
    PrefixElements(order, i);
    assert x in ClusterOf(g).txs && ClusterOf(g).parents[x] <= Elements(order[..i]);
    if a != x {
      var p := ParentsCover(g, x, a);
      assert p in ClusterOf(g).parents[x];
      var j :| 0 <= j < i && order[..i][j] == p;
      AncestorsBefore(g, order, j, a);
      assert order[..j + 1] <= order[..i + 1];
    }
  }

  lemma ParentsBefore(g: Graph, order: seq<nat>, i: nat, p: nat)
    requires ValidGraph(g) && AncestorsFirst(g, order) && i < |order| && order[i] in g.positions
    requires p in Parents(g, order[i])
    ensures p in Elements(order[..i])
  {
    PrefixElements(order, i);
  }

  lemma ThenAncestorsFirst(g: Graph, order: seq<nat>)
    requires ValidGraph(g) && Acyclic(g) && Sized(g)
    requires ValidCluster(ClusterOf(g)) && ParentsFirst(ClusterOf(g), order)
    ensures AncestorsFirst(g, order)
  {
    forall i | 0 <= i < |order|
      ensures order[i] in g.positions && g.ancestors[order[i]] <= Elements(order[..i + 1])
    {
      assert order[i] in ClusterOf(g).txs;
      forall a | a in g.ancestors[order[i]]
        ensures a in Elements(order[..i + 1])
      {
        AncestorsBefore(g, order, i, a);
      }
    }
  }

  lemma ThenParentsFirst(g: Graph, order: seq<nat>)
    requires ValidGraph(g) && ValidCluster(ClusterOf(g)) && AncestorsFirst(g, order)
    ensures ParentsFirst(ClusterOf(g), order)
  {
    forall i | 0 <= i < |order|
      ensures order[i] in g.positions && Parents(g, order[i]) <= Elements(order[..i])
    {
      forall p | p in Parents(g, order[i])
        ensures p in Elements(order[..i])
      {
        ParentsBefore(g, order, i, p);
      }
    }
  }

  /** To keep parents first is to keep ancestors first. */
  lemma ParentsFirstIffAncestorsFirst(g: Graph, order: seq<nat>)
    requires ValidGraph(g) && Acyclic(g) && Sized(g)
    ensures ValidCluster(ClusterOf(g))
    ensures ParentsFirst(ClusterOf(g), order) <==> AncestorsFirst(g, order)
    ensures IsOrder(ClusterOf(g), order) <==> IsLinearization(g, order)
  {
    ClusterOfValid(g);
    if ParentsFirst(ClusterOf(g), order) {
      ThenAncestorsFirst(g, order);
    } else if AncestorsFirst(g, order) {
      ThenParentsFirst(g, order);
    }
  }

  /** `x` has no parent in `U`. */
  ghost predicate FirstTx(g: Cluster, U: set<nat>, x: nat)
    requires ValidCluster(g) && U <= g.txs
  {
    x in U && g.parents[x] !! U
  }

  /** Every set of transactions has one that can go first. */
  ghost predicate AcyclicTxs(g: Cluster)
    requires ValidCluster(g)
  {
    forall U: set<nat> :: U <= g.txs && U != {} ==> exists x :: FirstTx(g, U, x)
  }

  lemma {:induction false} FewestAncestors(g: Graph, U: set<nat>) returns (x: nat)
    requires ValidGraph(g) && U <= g.positions && U != {}
    ensures x in U && forall y :: y in U ==> |g.ancestors[x]| <= |g.ancestors[y]|
    decreases |U|
  {
    x :| x in U;
    if U != {x} {
      assert U == (U - {x}) + {x};
      var y := FewestAncestors(g, U - {x});
      assert forall z :: z in U ==> z == x || z in U - {x};
      x := if |g.ancestors[y]| <= |g.ancestors[x]| then y else x;
    }
  }

  lemma AcyclicGraphIsAcyclic(g: Graph)
    requires ValidGraph(g) && Acyclic(g) && Sized(g)
    ensures ValidCluster(ClusterOf(g)) && AcyclicTxs(ClusterOf(g))
  {
    ClusterOfValid(g);
    forall U: set<nat> | U <= g.positions && U != {}
      ensures exists x :: FirstTx(ClusterOf(g), U, x)
    {
      var x := FewestAncestors(g, U);
      forall p | p in Parents(g, x) && p in U
        ensures false
      {
        StrictlyFewer(g, x, p);
      }
      assert FirstTx(ClusterOf(g), U, x);
    }
  }
}
