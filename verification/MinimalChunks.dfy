/** The chunks of a linearization that come from chunks that cannot be split. */
module MinimalChunks {
  import opened ClusterGraphs
  import opened Clusters
  import opened DepGraphs
  import opened FeeRates
  import opened Forests
  import opened Minimality
  import opened Orders
  import opened Sequences
  import opened SetSums
  import C = Chunking
  import D = Diagrams

  ghost function SetRate(g: Graph, X: set<nat>): FeeFrac
    requires ValidGraph(g) && X <= g.positions
  {
    FeeFrac(Sum(g.fees, X), Sum(g.sizes, X))
  }

  /** A part of `whole`, and not all of it, with every ancestor in `whole` of
      each. */
  ghost predicate GoesFirst(g: Graph, whole: set<nat>, X: set<nat>)
    requires ValidGraph(g) && whole <= g.positions
  {
    X <= whole && X != {} && X != whole && forall x :: x in X ==> g.ancestors[x] * whole <= X
  }

  /** Whatever of `whole` could go first is below it. */
  ghost predicate Indivisible(g: Graph, whole: set<nat>)
    requires ValidGraph(g) && whole <= g.positions
  {
    forall X: set<nat> :: GoesFirst(g, whole, X) ==> Below(SetRate(g, X), SetRate(g, whole))
  }

  /** `segs` are the chunks of `order`, and none of them could be split into two
      with the first not below the second. */
  ghost predicate MinimalChunksOf(g: Graph, segs: seq<seq<nat>>, order: seq<nat>)
    requires ValidGraph(g)
  {
    && D.Flatten(segs) == order && C.Chunks(g.fees, g.sizes, segs)
    && forall i :: 0 <= i < |segs| ==> Elements(segs[i]) <= g.positions && Indivisible(g, Elements(segs[i]))
  }

  lemma MinimalIsIndivisible(g: Graph, whole: set<nat>)
    requires ValidGraph(g) && ValidCluster(ClusterOf(g)) && whole <= g.positions && MinimalSet(ClusterOf(g), whole)
    ensures Indivisible(g, whole)
  {
    forall X: set<nat> | GoesFirst(g, whole, X)
      ensures Below(SetRate(g, X), SetRate(g, whole))
    {
      forall x | x in X
        ensures ClusterOf(g).parents[x] * whole <= X
      {
        assert Parents(g, x) <= g.ancestors[x];
      }
      assert !EvenPart(ClusterOf(g), whole, X);
    }
  }

  lemma NotBefore(pre: seq<nat>, seg: seq<nat>, post: seq<nat>, x: nat)
    requires Distinct(pre + seg + post) && x in Elements(seg)
    ensures x !in Elements(pre)
  {
    var j :| 0 <= j < |seg| && seg[j] == x;
    forall i | 0 <= i < |pre|
      ensures pre[i] != x
    {
      assert (pre + seg + post)[i] == pre[i] && (pre + seg + post)[|pre| + j] == x;
    }
  }

  lemma SegmentDistinct(pre: seq<nat>, seg: seq<nat>, post: seq<nat>)
    requires Distinct(pre + seg + post)
    ensures Distinct(seg)
  {
    forall i, j | 0 <= i < j < |seg|
      ensures seg[i] != seg[j]
    {
      assert (pre + seg + post)[|pre| + i] == seg[i] && (pre + seg + post)[|pre| + j] == seg[j];
    }
  }

  /** What is cut off a segment in front has every parent in the segment. */
  lemma CutIsClosed(g: Cluster, pre: seq<nat>, seg: seq<nat>, post: seq<nat>, k: nat)
    requires ValidCluster(g) && Distinct(pre + seg + post) && ParentsFirst(g, pre + seg + post) && k <= |seg|
    requires Elements(seg) <= g.txs
    ensures ClosedWithin(g, Elements(seg), Elements(seg[..k]))
  {
    var order := pre + seg + post;
    PrefixClosed(g, order, |pre| + k);
    assert order[..|pre| + k] == pre + seg[..k];
    assert Elements(pre + seg[..k]) == Elements(pre) + Elements(seg[..k]);
    forall c, p | c in Elements(seg[..k]) && p in g.parents[c] * Elements(seg)
      ensures p in Elements(seg[..k])
    {
      NotBefore(pre, seg, post, p);
    }
  }

  lemma CutIsPart(seg: seq<nat>, k: nat)
    requires Distinct(seg) && 0 < k < |seg|
    ensures Elements(seg[..k]) != {} && Elements(seg[..k]) != Elements(seg) && Distinct(seg[..k])
    ensures Elements(seg[..k]) <= Elements(seg)
  {
    assert seg[..k][0] in Elements(seg[..k]);
    assert seg[k] in Elements(seg);
    assert forall i :: 0 <= i < k ==> seg[..k][i] == seg[i];
  }

  /** A minimal chunk is above everything that is cut off it in front. */
  lemma MinimalCutBelow(g: Cluster, pre: seq<nat>, seg: seq<nat>, post: seq<nat>)
    requires ValidCluster(g) && Distinct(pre + seg + post) && ParentsFirst(g, pre + seg + post)
    requires Elements(seg) <= g.txs && MinimalSet(g, Elements(seg))
    ensures C.Priced(g.fees, g.sizes, seg) && D.PrefixesBelow(C.Rates(g.fees, g.sizes, seg))
    ensures C.SegRate(g.fees, g.sizes, seg) == Rate(g, Elements(seg))
  {
    SegmentDistinct(pre, seg, post);
    TotalIsRate(g, seg);
    forall k | 0 < k < |seg|
      ensures Cross(D.Total(C.Rates(g.fees, g.sizes, seg)[..k]), D.Total(C.Rates(g.fees, g.sizes, seg))) < 0
    {
      CutIsClosed(g, pre, seg, post, k);
      CutIsPart(seg, k);
      TotalIsRate(g, seg[..k]);
      C.RatesPrefix(g.fees, g.sizes, seg, k);
      assert !EvenPart(g, Elements(seg), Elements(seg[..k]));
    }
  }

  /** The order that is put out chunk by chunk, where every chunk is minimal. */
  lemma EmittedAreMinimal(g: Graph, t: Forest, chunks: seq<nat>, segs: seq<seq<nat>>, order: seq<nat>)
    requires ValidGraph(g) && Acyclic(g) && Sized(g) && Chunked(ClusterOf(g), t)
    requires ChunkByChunk(t, chunks, segs) && order == D.Flatten(segs) && IsOrder(ClusterOf(g), order)
    requires D.Sorted(ChunkRates(ClusterOf(g), t, chunks))
    requires forall k :: k in t ==> MinimalSet(ClusterOf(g), t[k].txs)
    ensures MinimalChunksOf(g, segs, order)
  {
    var v := ClusterOf(g);
    forall i | 0 <= i < |segs|
      ensures Elements(segs[i]) <= g.positions && Indivisible(g, Elements(segs[i]))
      ensures segs[i] != [] && C.Priced(g.fees, g.sizes, segs[i])
      ensures D.PrefixesBelow(C.Rates(g.fees, g.sizes, segs[i]))
      ensures C.SegRate(g.fees, g.sizes, segs[i]) == ChunkRates(v, t, chunks)[i]
    {
      OneIsMinimal(g, t, chunks, segs, i);
    }
  }

  lemma OneIsMinimal(g: Graph, t: Forest, chunks: seq<nat>, segs: seq<seq<nat>>, i: nat)
    requires ValidGraph(g) && ValidCluster(ClusterOf(g)) && Chunked(ClusterOf(g), t) && i < |segs|
    requires ChunkByChunk(t, chunks, segs) && IsOrder(ClusterOf(g), D.Flatten(segs))
    requires MinimalSet(ClusterOf(g), t[chunks[i]].txs)
    ensures Elements(segs[i]) <= g.positions && Indivisible(g, Elements(segs[i]))
    ensures segs[i] != [] && C.Priced(g.fees, g.sizes, segs[i])
    ensures D.PrefixesBelow(C.Rates(g.fees, g.sizes, segs[i]))
    ensures C.SegRate(g.fees, g.sizes, segs[i]) == ChunkRates(ClusterOf(g), t, chunks)[i]
  {
    assert chunks[i] in t && Elements(segs[i]) == t[chunks[i]].txs;
    MinimalIsIndivisible(g, Elements(segs[i]));
    D.FlattenAt(segs, i);
    MinimalCutBelow(ClusterOf(g), D.Flatten(segs[..i]), segs[i], D.Flatten(segs[i + 1..]));
  }
}
