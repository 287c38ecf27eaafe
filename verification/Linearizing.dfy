/** Finding or improving a linearization of a cluster. */
module Linearizing {
  import opened ClusterGraphs
  import opened Clusters
  import opened CompareChunks
  import opened DepGraphs
  import opened EmissionOrders
  import opened EmittedOrders
  import opened FeeRates
  import opened ForestStates
  import opened Forests
  import opened Improving
  import opened Loading
  import opened MinimalChunks
  import opened Minimality
  import opened Minimizing
  import opened OptimalChunks
  import opened Optimality
  import opened Options
  import opened Orders
  import opened Sequences
  import opened SpanningForest
  import C = Chunking
  import D = Diagrams

  /** The chunks of two linearizations of one cluster end in the same point. */
  lemma SameTotal(g: Graph, a: seq<nat>, b: seq<nat>)
    requires ValidGraph(g) && Acyclic(g) && Sized(g) && IsLinearization(g, a) && IsLinearization(g, b)
    ensures C.Priced(g.fees, g.sizes, a) && C.Priced(g.fees, g.sizes, b)
    ensures D.Total(C.Rates(g.fees, g.sizes, a)) == D.Total(C.Rates(g.fees, g.sizes, b))
  {
    ParentsFirstIffAncestorsFirst(g, a);
    ParentsFirstIffAncestorsFirst(g, b);
    TotalIsRate(ClusterOf(g), a);
    TotalIsRate(ClusterOf(g), b);
  }

  /** To be never worse is what the comparison of the chunks says with a 0 or a
      1, for the chunks that `ChunkLinearizationInfo` finds. */
  lemma NeverWorseIsVerdict(g: Graph, a: seq<nat>, b: seq<nat>, chunksA: seq<FeeFrac>, chunksB: seq<FeeFrac>)
    requires ValidGraph(g) && Acyclic(g) && Sized(g) && IsLinearization(g, a) && IsLinearization(g, b)
    requires C.Priced(g.fees, g.sizes, a) && C.Priced(g.fees, g.sizes, b)
    requires D.Positive(chunksA) && D.Sorted(chunksA) && D.Positive(chunksB) && D.Sorted(chunksB)
    requires D.Total(chunksA) == D.Total(C.Rates(g.fees, g.sizes, a))
    requires D.Total(chunksB) == D.Total(C.Rates(g.fees, g.sizes, b))
    requires forall slope: FeeFrac :: slope.size > 0 ==>
               D.Gain(chunksA, slope) == D.Peak(C.Rates(g.fees, g.sizes, a), slope)
    requires forall slope: FeeFrac :: slope.size > 0 ==>
               D.Gain(chunksB, slope) == D.Peak(C.Rates(g.fees, g.sizes, b), slope)
    ensures Verdict(chunksA, chunksB) in {Some(0), Some(1)} <==> NeverWorse(g, a, b)
  {
    SameTotal(g, a, b);
    VerdictOfDominating(chunksA, chunksB);
    if NeverWorse(g, a, b) {
      forall slope: FeeFrac | slope.size > 0
        ensures D.Gain(chunksA, slope) >= D.Gain(chunksB, slope)
      {
        assert D.Peak(C.Rates(g.fees, g.sizes, a), slope) >= D.Peak(C.Rates(g.fees, g.sizes, b), slope);
      }
    }
    if D.Dominates(chunksA, chunksB) {
      forall slope: FeeFrac | slope.size > 0
        ensures D.Peak(C.Rates(g.fees, g.sizes, a), slope) >= D.Peak(C.Rates(g.fees, g.sizes, b), slope)
      {
        assert D.Gain(chunksA, slope) >= D.Gain(chunksB, slope);
      }
    }
  }

  /** A parent that pays nothing, and its child. */
  ghost function TwoTransactions(): Graph {
    Graph([0, 10], [1, 1], [{0}, {0, 1}], [{0, 1}, {1}], {0, 1})
  }

  lemma TwoTransactionsAreACluster()
    ensures ValidGraph(TwoTransactions()) && Acyclic(TwoTransactions()) && Sized(TwoTransactions())
    ensures IsLinearization(TwoTransactions(), [0, 1])
  {
    var order: seq<nat> := [0, 1];
    assert order[..1] == [0] && order[..2] == order;
    assert Elements([0]) == {0} && Elements(order) == {0, 1};
  }

  lemma ThirdIsOne(order: seq<nat>)
    requires |order| > 2 && Elements(order) == {0, 1}
    ensures order[2] in {0, 1}
  {
    assert order[2] in Elements(order);
  }

  lemma OnlyOrder(order: seq<nat>)
    requires order != [] && Distinct(order) && Elements(order) == {0, 1} && 0 in Elements(order[..1])
    ensures order == [0, 1]
  {
    assert 1 in Elements(order);
    assert forall i :: 0 <= i < |order| ==> order[i] in Elements(order);
    assert order[..1] == [order[0]];
    assert order[0] == 0;
    var j :| 0 <= j < |order| && order[j] == 1;
    assert order[1] == 1;
    if |order| > 2 {
      ThirdIsOne(order);
    }
  }

  lemma ParentComesFirst(order: seq<nat>)
    requires ValidGraph(TwoTransactions()) && IsLinearization(TwoTransactions(), order)
    ensures order != [] && 0 in Elements(order[..1])
  {
    assert 0 in Elements(order);
    assert TwoTransactions().ancestors[order[0]] <= Elements(order[..1]);
  }

  lemma TwoRates()
    ensures var g := TwoTransactions();
            && C.Priced(g.fees, g.sizes, [0, 1]) && C.Rates(g.fees, g.sizes, [0, 1]) == [FeeFrac(0, 1), FeeFrac(10, 1)]
            && C.Priced(g.fees, g.sizes, [1, 0]) && C.Rates(g.fees, g.sizes, [1, 0]) == [FeeFrac(10, 1), FeeFrac(0, 1)]
  {
  }

  lemma TwoPeaks()
    ensures D.Peak([FeeFrac(0, 1), FeeFrac(10, 1)], FeeFrac(6, 1)) == 0
    ensures D.Peak([FeeFrac(10, 1), FeeFrac(0, 1)], FeeFrac(6, 1)) == 4
  {
    var parent, child := FeeFrac(0, 1), FeeFrac(10, 1);
    assert [parent, child][1..] == [child] && [child, parent][1..] == [parent];
    assert [child][1..] == [] && [parent][1..] == [];
  }

  lemma ParentFirstIsWorse(order: seq<nat>)
    requires ValidGraph(TwoTransactions()) && IsLinearization(TwoTransactions(), order)
    ensures order == [0, 1] && !NeverWorse(TwoTransactions(), order, [1, 0])
  {
    ParentComesFirst(order);
    OnlyOrder(order);
    TwoRates();
    TwoPeaks();
    var g, slope := TwoTransactions(), FeeFrac(6, 1);
    assert !(D.Peak(C.Rates(g.fees, g.sizes, order), slope) >= D.Peak(C.Rates(g.fees, g.sizes, [1, 0]), slope));
  }

  /** Only of a linearization can a result be asked that is never worse: in this
      cluster, the child before its parent is better than any linearization. */
  lemma ChildFirstIsBetter()
    ensures ValidGraph(TwoTransactions()) && Acyclic(TwoTransactions()) && Sized(TwoTransactions())
    ensures IsLinearization(TwoTransactions(), [0, 1])
    ensures forall order :: IsLinearization(TwoTransactions(), order) ==> !NeverWorse(TwoTransactions(), order, [1, 0])
  {
    TwoTransactionsAreACluster();
    forall order | IsLinearization(TwoTransactions(), order)
      ensures !NeverWorse(TwoTransactions(), order, [1, 0])
    {
      ParentFirstIsWorse(order);
    }
  }

  /** What the forest gains is kept. */
  lemma LoadedKept(g: Cluster, t0: Forest, t: Forest, order: seq<nat>)
    requires Chunked(g, t0) && Chunked(g, t) && NoWorse(g, t, t0)
    requires C.Priced(g.fees, g.sizes, order) && Loaded(g, t0, t0.Keys, order)
    ensures Loaded(g, t, t.Keys, order)
  {
    forall slope: FeeFrac | slope.size > 0
      ensures GainOver(g, t, t.Keys, slope) >= D.Peak(C.Rates(g.fees, g.sizes, order), slope)
    {
      assert NoWorseAlong(g, t, t0, slope);
    }
  }

  lemma SameIsNoWorse(g: Cluster, t: Forest, t0: Forest)
    requires Chunked(g, t) && Chunked(g, t0) && SameGain(g, t, t0)
    ensures NoWorse(g, t, t0)
  {
    forall slope: FeeFrac | slope.size > 0
      ensures NoWorseAlong(g, t, t0, slope)
    {
      assert GainOver(g, t, t.Keys, slope) == GainOver(g, t0, t0.Keys, slope);
    }
  }

  /** The order that is put out rises as high as the chunks gain. */
  lemma EmittedIsNeverWorse(g: Graph, t: Forest, chunks: seq<nat>, segs: seq<seq<nat>>, a: seq<nat>, b: seq<nat>)
    requires ValidGraph(g) && Chunked(ClusterOf(g), t) && ChunkByChunk(t, chunks, segs) && Elements(chunks) == t.Keys
    requires a == D.Flatten(segs) && D.Sorted(ChunkRates(ClusterOf(g), t, chunks))
    requires C.Priced(g.fees, g.sizes, b) && Loaded(ClusterOf(g), t, t.Keys, b)
    ensures NeverWorse(g, a, b)
  {
    var _ := PartsOfOrder(ClusterOf(g), t, chunks, segs);
    forall slope: FeeFrac | slope.size > 0
      ensures D.Peak(C.Rates(g.fees, g.sizes, a), slope) >= D.Peak(C.Rates(g.fees, g.sizes, b), slope)
    {
      ChunkedOrder(ClusterOf(g), t, chunks, segs, slope);
    }
  }

  /** Where no top set beats its chunk, the forest gains what any order's
      prefixes are worth. */
  lemma OptimalLoads(g: Cluster, t: Forest, order: seq<nat>)
    requires ValidForest(g, t) && Optimal(g, t) && TxsOf(t, t.Keys) == g.txs && IsOrder(g, order)
    ensures C.Priced(g.fees, g.sizes, order) && Chunked(g, t) && Loaded(g, t, t.Keys, order)
  {
    assert forall x :: x in order ==> x in Elements(order);
    OrderPriced(g, order);
    ValidIsChunked(g, t);
    forall slope: FeeFrac | slope.size > 0
      ensures GainOver(g, t, t.Keys, slope) >= D.Peak(C.Rates(g.fees, g.sizes, order), slope)
    {
      NoOrderBeats(g, t, order, slope);
    }
  }

  /** Whether the forest gains what an earlier order's prefixes are worth. */
  ghost predicate Keeps(forest: SpanningForestState, order: seq<nat>)
    requires forest.Valid()
    reads forest
  {
    && Chunked(forest.G(), forest.Trees()) && C.Priced(forest.fees, forest.sizes, order)
    && Loaded(forest.G(), forest.Trees(), forest.Trees().Keys, order)
  }

  /** Improves chunks until none can be, or the work is too much. */
  method Optimize(forest: SpanningForestState, maxCost: int, ghost order: seq<nat>)
    requires forest.Valid() && forest.suboptimal == [] && forest.cost < maxCost
    requires Chunked(forest.G(), forest.Trees()) && Topological(forest.G(), forest.Trees())
    modifies forest
    ensures forest.Valid() && Chunked(forest.G(), forest.Trees()) && Topological(forest.G(), forest.Trees())
    ensures old(Keeps(forest, order)) ==> Keeps(forest, order)
    ensures forest.cost < maxCost ==> Optimal(forest.G(), forest.Trees())
  {
    ghost var kept := Keeps(forest, order);
    forest.StartOptimizing();
    var more := OptimizeOnce(forest, order);
    while more && forest.cost < maxCost
      invariant forest.Valid() && forest.QueueOk() && forest.QueuedOrUnbeaten()
      invariant Chunked(forest.G(), forest.Trees()) && Topological(forest.G(), forest.Trees())
      invariant kept ==> Keeps(forest, order)
      invariant !more ==> Optimal(forest.G(), forest.Trees())
      decreases maxCost - forest.cost
    {
      more := OptimizeOnce(forest, order);
    }
  }

  method OptimizeOnce(forest: SpanningForestState, ghost order: seq<nat>) returns (more: bool)
    requires forest.Valid() && forest.QueueOk() && forest.QueuedOrUnbeaten()
    requires Chunked(forest.G(), forest.Trees()) && Topological(forest.G(), forest.Trees())
    modifies forest
    ensures forest.Valid() && forest.QueueOk() && forest.QueuedOrUnbeaten()
    ensures Chunked(forest.G(), forest.Trees()) && Topological(forest.G(), forest.Trees())
    ensures forest.cost > old(forest.cost)
    ensures !more ==> Optimal(forest.G(), forest.Trees())
    ensures old(Keeps(forest, order)) ==> Keeps(forest, order)
  {
    ghost var t, kept := forest.Trees(), Keeps(forest, order);
    more := forest.OptimizeStep();
    if kept {
      LoadedKept(forest.G(), t, forest.Trees(), order);
    }
  }

  /** Splits chunks until all are minimal, or the work is too much; tells
      which. */
  method Minimize(forest: SpanningForestState, maxCost: int, ghost order: seq<nat>) returns (done: bool)
    requires forest.Valid() && Chunked(forest.G(), forest.Trees()) && Topological(forest.G(), forest.Trees())
    requires Optimal(forest.G(), forest.Trees())
    modifies forest
    ensures forest.Settling() && (!done ==> forest.cost >= maxCost)
    ensures done ==> forall k :: k in forest.Trees() ==> MinimalSet(forest.G(), forest.Trees()[k].txs)
    ensures old(Keeps(forest, order)) ==> Keeps(forest, order)
  {
    ghost var kept := Keeps(forest, order);
    TopologicalIsAcyclic(forest.G(), forest.Trees());
    forest.StartMinimizing();
    NoneTried(forest.G(), forest.Trees(), forest.nonminimal);
    while true
      invariant forest.Settling() && forest.Minimized({})
      invariant kept ==> Keeps(forest, order)
      decreases maxCost - forest.cost
    {
      var more := MinimizeOnce(forest, order);
      if !more {
        AllMinimal(forest.G(), forest.Trees());
        return true;
      }
      if forest.cost >= maxCost {
        return false;
      }
    }
  }

  method MinimizeOnce(forest: SpanningForestState, ghost order: seq<nat>) returns (more: bool)
    requires forest.Settling() && forest.Minimized({})
    modifies forest
    ensures forest.Settling() && forest.Minimized({})
    ensures if more then forest.cost > old(forest.cost) else forest.nonminimal == []
    ensures old(Keeps(forest, order)) ==> Keeps(forest, order)
  {
    ghost var t, kept := forest.Trees(), Keeps(forest, order);
    more := forest.MinimizeStep();
    if kept {
      SameIsNoWorse(forest.G(), forest.Trees(), t);
      LoadedKept(forest.G(), t, forest.Trees(), order);
    }
  }

  /** What `Linearize` does before it optimizes: the chunks are topological, and
      gain what an earlier order is worth, where that is a linearization. */
  method Load(forest: SpanningForestState, oldLinearization: seq<nat>, isTopological: bool)
    requires forest.Valid() && Singles(forest.Trees(), {}) && forest.suboptimal == []
    requires forall x :: x in oldLinearization ==> x in forest.transactions
    requires isTopological && oldLinearization != [] ==> IsOrder(forest.G(), oldLinearization)
    modifies forest
    ensures forest.Valid() && forest.suboptimal == []
    ensures Chunked(forest.G(), forest.Trees()) && Topological(forest.G(), forest.Trees())
    ensures oldLinearization != [] && IsOrder(forest.G(), oldLinearization) ==> Keeps(forest, oldLinearization)
  {
    if oldLinearization != [] {
      forest.LoadLinearization(oldLinearization);
      if !isTopological {
        forest.MakeTopological();
      }
    } else {
      forest.MakeTopological();
    }
  }

  /** The order, chunk by chunk, and what it is worth. */
  method Emit(depgraph: DepGraph, forest: SpanningForestState, key: nat -> int, ghost order: seq<nat>,
              ghost optimal: bool)
    returns (linearization: seq<nat>, ghost segs: seq<seq<nat>>)
    requires depgraph.Valid() && Acyclic(depgraph.Value()) && Sized(depgraph.Value())
    requires forest.G() == ClusterOf(depgraph.Value()) && forest.Valid()
    requires Chunked(forest.G(), forest.Trees()) && WeaklyTopological(forest.G(), forest.Trees())
    requires AcyclicChunks(forest.G(), forest.Trees()) && (optimal ==> Optimal(forest.G(), forest.Trees()))
    requires optimal ==> forall k :: k in forest.Trees() ==> MinimalSet(forest.G(), forest.Trees()[k].txs)
    ensures IsLinearization(depgraph.Value(), linearization)
    ensures Keeps(forest, order) ==> NeverWorse(depgraph.Value(), linearization, order)
    ensures optimal ==> forall other :: IsLinearization(depgraph.Value(), other) ==>
              NeverWorse(depgraph.Value(), linearization, other)
    ensures optimal ==> MinimalChunksOf(depgraph.Value(), segs, linearization)
    ensures linearization == D.Flatten(segs) && InTurn(ClusterOf(depgraph.Value()), key, segs)
  {
    ghost var g, t, chunks := depgraph.Value(), forest.Trees(), [];
    AcyclicGraphIsAcyclic(g);
    linearization, chunks, segs := forest.GetLinearization(key);
    ParentsFirstIffAncestorsFirst(g, linearization);
    if Keeps(forest, order) {
      EmittedIsNeverWorse(g, t, chunks, segs, linearization, order);
    }
    if optimal {
      EmittedAreMinimal(g, t, chunks, segs, linearization);
      forall other | IsLinearization(g, other)
        ensures NeverWorse(g, linearization, other)
      {
        BeatsAny(g, forest.Value(), chunks, segs, linearization, other);
      }
    }
  }

  lemma BeatsAny(g: Graph, s: State, chunks: seq<nat>, segs: seq<seq<nat>>, a: seq<nat>, b: seq<nat>)
    requires ValidGraph(g) && Acyclic(g) && Sized(g) && ValidState(ClusterOf(g), s)
    requires Optimal(ClusterOf(g), TreesOf(ClusterOf(g), s)) && Chunked(ClusterOf(g), TreesOf(ClusterOf(g), s))
    requires ChunkByChunk(TreesOf(ClusterOf(g), s), chunks, segs)
    requires Elements(chunks) == TreesOf(ClusterOf(g), s).Keys
    requires a == D.Flatten(segs) && D.Sorted(ChunkRates(ClusterOf(g), TreesOf(ClusterOf(g), s), chunks))
    requires IsLinearization(g, b)
    ensures NeverWorse(g, a, b)
  {
    ParentsFirstIffAncestorsFirst(g, b);
    AllListed(ClusterOf(g), s);
    OptimalLoads(ClusterOf(g), TreesOf(ClusterOf(g), s), b);
    EmittedIsNeverWorse(g, TreesOf(ClusterOf(g), s), chunks, segs, a, b);
  }

  /** Where nothing is to be ordered. */
  lemma NothingToOrder(g: Graph, order: seq<nat>)
    requires ValidGraph(g) && IsLinearization(g, []) && IsLinearization(g, order)
    ensures order == [] && NeverWorse(g, order, [])
  {
    var none: seq<nat> := [];
    assert Elements(none) == {};
    EachIsElement(order);
  }

  /** Optimizes, and then splits chunks, as far as the budget goes. */
  method Solve(forest: SpanningForestState, maxCost: int, ghost order: seq<nat>) returns (optimal: bool)
    requires forest.Valid() && forest.suboptimal == []
    requires Chunked(forest.G(), forest.Trees()) && Topological(forest.G(), forest.Trees())
    modifies forest
    ensures forest.Valid() && Chunked(forest.G(), forest.Trees())
    ensures WeaklyTopological(forest.G(), forest.Trees()) && AcyclicChunks(forest.G(), forest.Trees())
    ensures if optimal then Optimal(forest.G(), forest.Trees()) else forest.cost >= maxCost
    ensures optimal ==> forall k :: k in forest.Trees() ==> MinimalSet(forest.G(), forest.Trees()[k].txs)
    ensures old(Keeps(forest, order)) ==> Keeps(forest, order)
  {
    if forest.cost < maxCost {
      Optimize(forest, maxCost, order);
    }
    optimal := false;
    TopologicalIsAcyclic(forest.G(), forest.Trees());
    if forest.cost < maxCost {
      optimal := Minimize(forest, maxCost, order);
    }
  }

  /** Finds or improves a linearization. Whatever the random choices, the budget
      and the keys: the result is a linearization. It is never worse than the
      old order, where that is one too, whether or not it is said to be. Its
      segments, and the transactions of each, come in turn. Where the result is
      said to be optimal, it is never worse than any, and its segments are its
      chunks, and minimal; where it is not, the budget was spent. */
  method Linearize(depgraph: DepGraph, maxCost: int, key: nat -> int, oldLinearization: seq<nat>, isTopological: bool)
    returns (linearization: seq<nat>, optimal: bool, cost: int, ghost segs: seq<seq<nat>>)
    requires depgraph.Valid() && Acyclic(depgraph.Value()) && Sized(depgraph.Value())
    requires forall x :: x in oldLinearization ==> x in depgraph.positions
    requires isTopological && oldLinearization != [] ==> IsLinearization(depgraph.Value(), oldLinearization)
    ensures IsLinearization(depgraph.Value(), linearization)
    ensures IsLinearization(depgraph.Value(), oldLinearization) ==>
              NeverWorse(depgraph.Value(), linearization, oldLinearization)
    ensures optimal ==> forall other :: IsLinearization(depgraph.Value(), other) ==>
              NeverWorse(depgraph.Value(), linearization, other)
    ensures optimal ==> MinimalChunksOf(depgraph.Value(), segs, linearization)
    ensures ValidCluster(ClusterOf(depgraph.Value()))
    ensures linearization == D.Flatten(segs) && InTurn(ClusterOf(depgraph.Value()), key, segs)
    ensures !optimal ==> cost >= maxCost
  {
    ParentsFirstIffAncestorsFirst(depgraph.Value(), oldLinearization);
    var forest := new SpanningForestState(depgraph);
    Load(forest, oldLinearization, isTopological);
    optimal := Solve(forest, maxCost, oldLinearization);
    linearization, segs := Emit(depgraph, forest, key, oldLinearization, optimal);
    cost := forest.cost;
    if oldLinearization == [] && IsLinearization(depgraph.Value(), []) {
      NothingToOrder(depgraph.Value(), linearization);
    }
  }

  /** The comparison of the chunks of a result with those of the linearization
      that it was to improve never says that it is worse, nor that the two do
      not compare. */
  method CompareWithOld(depgraph: DepGraph, maxCost: int, key: nat -> int, oldLinearization: seq<nat>,
                        isTopological: bool)
    returns (verdict: Option<int>)
    requires depgraph.Valid() && Acyclic(depgraph.Value()) && Sized(depgraph.Value())
    requires IsLinearization(depgraph.Value(), oldLinearization)
    ensures verdict in {Some(0), Some(1)}
  {
    ghost var g := depgraph.Value();
    LinearizationElements(g, oldLinearization);
    var linearization, optimal, cost, _ := Linearize(depgraph, maxCost, key, oldLinearization, isTopological);
    var chunks, _ := C.ChunkLinearizationInfo(depgraph, linearization);
    var oldChunks, _ := C.ChunkLinearizationInfo(depgraph, oldLinearization);
    verdict := CompareChunks.CompareChunks(C.Feerates(chunks), C.Feerates(oldChunks));
    NeverWorseIsVerdict(g, linearization, oldLinearization, C.Feerates(chunks), C.Feerates(oldChunks));
  }

  /** With distinct keys, a result that is optimal depends on nothing but the graph
      and the keys: not on the random choices, the budget or the old order. */
  method LinearizeTwice(depgraph: DepGraph, key: nat -> int, maxCost: int, oldLinearization: seq<nat>,
                        isTopological: bool, maxCost': int, oldLinearization': seq<nat>, isTopological': bool)
    returns (a: seq<nat>, b: seq<nat>, bothOptimal: bool)
    requires depgraph.Valid() && Acyclic(depgraph.Value()) && Sized(depgraph.Value())
    requires forall x :: x in oldLinearization + oldLinearization' ==> x in depgraph.positions
    requires isTopological && oldLinearization != [] ==> IsLinearization(depgraph.Value(), oldLinearization)
    requires isTopological' && oldLinearization' != [] ==> IsLinearization(depgraph.Value(), oldLinearization')
    requires Injective(key, depgraph.positions)
    ensures bothOptimal ==> a == b
  {
    ghost var segs, segs';
    var optimal, optimal', cost, cost';
    a, optimal, cost, segs := Linearize(depgraph, maxCost, key, oldLinearization, isTopological);
    b, optimal', cost', segs' := Linearize(depgraph, maxCost', key, oldLinearization', isTopological');
    bothOptimal := optimal && optimal';
    if bothOptimal {
      OneOptimum(depgraph.Value(), key, a, segs, b, segs');
    }
  }

  lemma LinearizationElements(g: Graph, order: seq<nat>)
    requires ValidGraph(g) && IsLinearization(g, order)
    ensures forall x :: x in order ==> x in g.positions
  {
    assert forall x :: x in order ==> x in Elements(order);
  }
}
