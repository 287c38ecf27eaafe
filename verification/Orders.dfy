/** Orders of a cluster's transactions, and how their diagrams compare to what
    the chunks of a forest gain. */
module Orders {
  import opened Climbs
  import opened Clusters
  import opened FeeRates
  import opened Forests
  import opened Optimality
  import opened Sequences
  import opened SetSums
  import C = Chunking
  import D = Diagrams

  ghost predicate ParentsFirst(g: Cluster, order: seq<nat>)
    requires ValidCluster(g)
  {
    forall i :: 0 <= i < |order| ==> order[i] in g.txs && g.parents[order[i]] <= Elements(order[..i])
  }

  ghost predicate IsOrder(g: Cluster, order: seq<nat>)
    requires ValidCluster(g)
  {
    Distinct(order) && ParentsFirst(g, order) && Elements(order) == g.txs
  }

  lemma OrderPriced(g: Cluster, order: seq<nat>)
    requires ValidCluster(g) && forall x :: x in order ==> x in g.txs
    ensures C.Priced(g.fees, g.sizes, order)
  {
    forall i | 0 <= i < |order|
      ensures order[i] in g.txs
    {
      assert order[i] in order;
    }
  }

  lemma {:induction false} TotalIsRate(g: Cluster, order: seq<nat>)
    requires ValidCluster(g) && Distinct(order) && Elements(order) <= g.txs
    ensures C.Priced(g.fees, g.sizes, order)
    ensures D.Total(C.Rates(g.fees, g.sizes, order)) == Rate(g, Elements(order))
    decreases |order|
  {
    assert forall x :: x in order ==> x in Elements(order);
    OrderPriced(g, order);
    if order == [] {
      assert Elements(order) == {};
    } else {
      var n := |order| - 1;
      var rest, x := order[..n], order[n];
      assert order == rest + [x];
      assert Elements(order) == Elements(rest) + {x};
      TotalIsRate(g, rest);
      C.RatesAppend(g.fees, g.sizes, rest, x);
      var r := FeeFrac(g.fees[x], g.sizes[x]);
      D.TotalConcat(C.Rates(g.fees, g.sizes, rest), [r]);
      assert [r][1..] == [];
      RateUnion(g, Elements(rest), {x});
      SumSingle(g.fees, x);
      SumSingle(g.sizes, x);
    }
  }

  lemma PrefixClosed(g: Cluster, order: seq<nat>, n: nat)
    requires ValidCluster(g) && ParentsFirst(g, order) && n <= |order|
    ensures ClosedIn(g, Elements(order[..n]))
  {
    forall x | x in Elements(order[..n])
      ensures x in g.txs && g.parents[x] <= Elements(order[..n])
    {
      var i :| 0 <= i < n && order[i] == x;
      assert Elements(order[..i]) <= Elements(order[..n]) by {
        assert order[..i] == order[..n][..i];
      }
    }
  }

  lemma PrefixWithin(g: Cluster, t: Forest, order: seq<nat>, n: nat, slope: FeeFrac)
    requires ValidForest(g, t) && Optimal(g, t) && TxsOf(t, t.Keys) == g.txs
    requires IsOrder(g, order) && slope.size > 0 && n <= |order| && C.Priced(g.fees, g.sizes, order)
    ensures Cross(D.Total(C.Rates(g.fees, g.sizes, order)[..n]), slope) <= GainOver(g, t, t.Keys, slope)
  {
    var prefix := order[..n];
    PrefixClosed(g, order, n);
    TotalIsRate(g, prefix);
    C.RatesPrefix(g.fees, g.sizes, order, n);
    OptimalBound(g, t, Elements(prefix), slope);
  }

  /** Where no top set beats its chunk, no ancestors-first order has a prefix
      worth more than the chunks gain. */
  lemma NoOrderBeats(g: Cluster, t: Forest, order: seq<nat>, slope: FeeFrac)
    requires ValidForest(g, t) && Optimal(g, t) && TxsOf(t, t.Keys) == g.txs
    requires IsOrder(g, order) && slope.size > 0 && C.Priced(g.fees, g.sizes, order)
    ensures D.Peak(C.Rates(g.fees, g.sizes, order), slope) <= GainOver(g, t, t.Keys, slope)
  {
    var rs := C.Rates(g.fees, g.sizes, order);
    D.PeakIsGreatestPrefix(rs, slope, 0);
    var n :| 0 <= n <= |rs| && Cross(D.Total(rs[..n]), slope) == D.Peak(rs, slope);
    PrefixWithin(g, t, order, n, slope);
  }

  lemma TxsTake(g: Cluster, t: Forest, S: set<nat>, k: nat)
    requires Chunked(g, t) && S <= t.Keys && k in S
    ensures TxsOf(t, S) == TxsOf(t, S - {k}) + t[k].txs
    ensures TxsOf(t, S - {k}) !! t[k].txs
    ensures TxsOf(t, S) <= g.txs
  {
  }

  lemma {:induction false} NetIsRate(g: Cluster, t: Forest, S: set<nat>, slope: FeeFrac)
    requires Chunked(g, t) && S <= t.Keys
    ensures TxsOf(t, S) <= g.txs && NetOver(g, t, S, slope) == Cross(Rate(g, TxsOf(t, S)), slope)
    decreases |S|
  {
    if S == {} {
      assert TxsOf(t, S) == {};
    } else {
      var k :| k in S;
      TxsTake(g, t, S, k);
      NetIsRate(g, t, S - {k}, slope);
      NetTake(g, t, S, slope, k);
      RateUnion(g, TxsOf(t, S - {k}), t[k].txs);
      CrossPlus(Rate(g, TxsOf(t, S - {k})), RateOf(g, t, k), slope);
    }
  }

  /** The chunks in `S` hold the transactions of `order`, and gain at least what
      every prefix of it is worth. */
  ghost predicate Loaded(g: Cluster, t: Forest, S: set<nat>, order: seq<nat>)
    requires Chunked(g, t) && S <= t.Keys && C.Priced(g.fees, g.sizes, order)
  {
    forall slope: FeeFrac :: slope.size > 0 ==>
      GainOver(g, t, S, slope) >= D.Peak(C.Rates(g.fees, g.sizes, order), slope)
  }

  /** Loading one more transaction loses nothing. */
  lemma LoadedNext(g: Cluster, t: Forest, S: set<nat>, m: nat, t': Forest, S': set<nat>, m': nat, rho: FeeFrac,
                   order: seq<nat>, x: nat)
    requires Chunked(g, t) && Chunked(g, t') && S <= t.Keys && m in t && m !in S && S' <= t'.Keys && m' in S'
    requires Keeps(g, t', S', m', rho, BOTTOM, t, S + {m}, m)
    requires Distinct(order + [x]) && Elements(order + [x]) <= g.txs
    requires TxsOf(t, S) == Elements(order) && t[m].txs == {x}
    requires C.Priced(g.fees, g.sizes, order) && C.Priced(g.fees, g.sizes, order + [x])
    requires Loaded(g, t, S, order)
    ensures Loaded(g, t', S', order + [x])
  {
    assert Elements(order + [x]) == TxsOf(t, S + {m}) by {
      assert Elements(order + [x]) == Elements(order) + {x};
      assert S + {m} - {m} == S;
      TxsTake(g, t, S + {m}, m);
    }
    forall slope: FeeFrac | slope.size > 0
      ensures GainOver(g, t', S', slope) >= D.Peak(C.Rates(g.fees, g.sizes, order + [x]), slope)
    {
      LoadedAlong(g, t, S, m, t', S', m', rho, order, x, slope);
    }
  }

  lemma LoadedAlong(g: Cluster, t: Forest, S: set<nat>, m: nat, t': Forest, S': set<nat>, m': nat, rho: FeeFrac,
                    order: seq<nat>, x: nat, slope: FeeFrac)
    requires Chunked(g, t) && Chunked(g, t') && S <= t.Keys && m in t && m !in S && S' <= t'.Keys && m' in S'
    requires KeepsAlong(g, t', S', m', rho, BOTTOM, t, S + {m}, m, slope)
    requires Distinct(order + [x]) && Elements(order + [x]) <= g.txs
    requires Elements(order + [x]) == TxsOf(t, S + {m})
    requires C.Priced(g.fees, g.sizes, order) && C.Priced(g.fees, g.sizes, order + [x])
    requires GainOver(g, t, S, slope) >= D.Peak(C.Rates(g.fees, g.sizes, order), slope)
    ensures GainOver(g, t', S', slope) >= D.Peak(C.Rates(g.fees, g.sizes, order + [x]), slope)
  {
    KeepsMore(g, t, S, m, t', S', m', rho, slope);
    NetIsRate(g, t, S + {m}, slope);
    TotalIsRate(g, order + [x]);
    C.RatesAppend(g.fees, g.sizes, order, x);
    NextPeak(C.Rates(g.fees, g.sizes, order), FeeFrac(g.fees[x], g.sizes[x]), slope);
  }

  lemma KeepsMore(g: Cluster, t: Forest, S: set<nat>, m: nat, t': Forest, S': set<nat>, m': nat, rho: FeeFrac,
                  slope: FeeFrac)
    requires Chunked(g, t) && Chunked(g, t') && S <= t.Keys && m in t && m !in S && S' <= t'.Keys && m' in S'
    requires KeepsAlong(g, t', S', m', rho, BOTTOM, t, S + {m}, m, slope)
    ensures GainOver(g, t', S', slope) >= GainOver(g, t, S, slope)
    ensures GainOver(g, t', S', slope) >= NetOver(g, t, S + {m}, slope)
  {
    assert S + {m} - {m} == S;
    GainTake(g, t', S', slope, m');
    NetAtMostGain(g, t', S', slope);
  }

  lemma NextPeak(rs: seq<FeeFrac>, r: FeeFrac, slope: FeeFrac)
    ensures D.Peak(rs + [r], slope) <= D.Peak(rs, slope) || D.Peak(rs + [r], slope) <= Cross(D.Total(rs + [r]), slope)
  {
    D.PeakConcat(rs, [r], slope);
    D.TotalConcat(rs, [r]);
    assert [r][1..] == [];
    CrossPlus(D.Total(rs), r, slope);
    D.PeakIsGreatestPrefix(rs, slope, |rs|);
    assert rs[..|rs|] == rs;
  }

  // --- the order that a forest gives ---

  ghost function ChunkRates(g: Cluster, t: Forest, chunks: seq<nat>): (rs: seq<FeeFrac>)
    requires Chunked(g, t) && forall i :: 0 <= i < |chunks| ==> chunks[i] in t
    ensures |rs| == |chunks| && D.Positive(rs)
  {
    seq(|chunks|, i requires 0 <= i < |chunks| => RateOf(g, t, chunks[i]))
  }

  lemma FirstAndRest(s: seq<nat>)
    requires s != [] && Distinct(s)
    ensures Elements(s) - {s[0]} == Elements(s[1..]) && s[0] in Elements(s)
  {
    forall i | 0 <= i < |s[1..]|
      ensures s[1..][i] == s[i + 1] && s[i + 1] != s[0]
    {
    }
    forall i | 0 < i < |s|
      ensures s[i] == s[1..][i - 1]
    {
    }
  }

  lemma {:induction false} GainOfChunks(g: Cluster, t: Forest, chunks: seq<nat>, slope: FeeFrac)
    requires Chunked(g, t) && Distinct(chunks) && forall i :: 0 <= i < |chunks| ==> chunks[i] in t
    ensures Elements(chunks) <= t.Keys
    ensures D.Gain(ChunkRates(g, t, chunks), slope) == GainOver(g, t, Elements(chunks), slope)
    decreases |chunks|
  {
    if chunks == [] {
      assert Elements(chunks) == {};
    } else {
      var k, rest := chunks[0], chunks[1..];
      GainOfChunks(g, t, rest, slope);
      FirstAndRest(chunks);
      GainTake(g, t, Elements(chunks), slope, k);
      GainOfFirst(g, t, chunks, slope);
    }
  }

  lemma GainOfFirst(g: Cluster, t: Forest, chunks: seq<nat>, slope: FeeFrac)
    requires Chunked(g, t) && chunks != [] && forall i :: 0 <= i < |chunks| ==> chunks[i] in t
    ensures D.Gain(ChunkRates(g, t, chunks), slope)
         == Pos(Cross(RateOf(g, t, chunks[0]), slope)) + D.Gain(ChunkRates(g, t, chunks[1..]), slope)
  {
    assert ChunkRates(g, t, chunks)[1..] == ChunkRates(g, t, chunks[1..]);
  }

  /** `order` lists the transactions of one chunk after another. */
  ghost predicate ChunkByChunk(t: Forest, chunks: seq<nat>, segs: seq<seq<nat>>) {
    && |segs| == |chunks| && Distinct(chunks)
    && forall i :: 0 <= i < |chunks| ==> chunks[i] in t && Distinct(segs[i]) && Elements(segs[i]) == t[chunks[i]].txs
  }

  lemma {:induction false} PartsOfOrder(g: Cluster, t: Forest, chunks: seq<nat>, segs: seq<seq<nat>>)
    returns (parts: seq<seq<FeeFrac>>)
    requires Chunked(g, t) && ChunkByChunk(t, chunks, segs)
    ensures C.Priced(g.fees, g.sizes, D.Flatten(segs))
    ensures D.Flatten(parts) == C.Rates(g.fees, g.sizes, D.Flatten(segs))
    ensures D.Totals(parts) == ChunkRates(g, t, chunks)
    decreases |segs|
  {
    if segs == [] {
      parts := [];
    } else {
      var rest := PartsOfOrder(g, t, chunks[1..], segs[1..]);
      TotalIsRate(g, segs[0]);
      var first := C.Rates(g.fees, g.sizes, segs[0]);
      parts := [first] + rest;
      FirstOfParts(first, rest);
      RatesOfConcat(g, segs[0], D.Flatten(segs[1..]));
      assert ChunkRates(g, t, chunks) == [RateOf(g, t, chunks[0])] + ChunkRates(g, t, chunks[1..]);
    }
  }

  lemma FirstOfParts(first: seq<FeeFrac>, rest: seq<seq<FeeFrac>>)
    ensures D.Totals([first] + rest) == [D.Total(first)] + D.Totals(rest)
    ensures D.Flatten([first] + rest) == first + D.Flatten(rest)
  {
    assert ([first] + rest)[1..] == rest;
  }

  lemma RatesOfConcat(g: Cluster, a: seq<nat>, b: seq<nat>)
    requires C.Priced(g.fees, g.sizes, a) && C.Priced(g.fees, g.sizes, b)
    ensures C.Priced(g.fees, g.sizes, a + b)
    ensures C.Rates(g.fees, g.sizes, a + b) == C.Rates(g.fees, g.sizes, a) + C.Rates(g.fees, g.sizes, b)
  {
  }

  /** Chunk by chunk, best first, an order rises as high as the chunks gain. */
  lemma ChunkedOrder(g: Cluster, t: Forest, chunks: seq<nat>, segs: seq<seq<nat>>, slope: FeeFrac)
    requires Chunked(g, t) && ChunkByChunk(t, chunks, segs) && Elements(chunks) == t.Keys && slope.size > 0
    requires D.Sorted(ChunkRates(g, t, chunks))
    ensures C.Priced(g.fees, g.sizes, D.Flatten(segs))
    ensures D.Peak(C.Rates(g.fees, g.sizes, D.Flatten(segs)), slope) >= GainOver(g, t, t.Keys, slope)
  {
    var parts := PartsOfOrder(g, t, chunks, segs);
    D.PeakOfParts(parts, slope);
    D.SortedPeak(ChunkRates(g, t, chunks), slope);
    GainOfChunks(g, t, chunks, slope);
  }

  /** So along every slope. */
  lemma EmittedPeaks(g: Cluster, t: Forest, chunks: seq<nat>, segs: seq<seq<nat>>)
    requires Chunked(g, t) && ChunkByChunk(t, chunks, segs) && Elements(chunks) == t.Keys
    requires D.Sorted(ChunkRates(g, t, chunks))
    ensures C.Priced(g.fees, g.sizes, D.Flatten(segs)) && forall slope: FeeFrac :: slope.size > 0 ==>
              D.Peak(C.Rates(g.fees, g.sizes, D.Flatten(segs)), slope) >= GainOver(g, t, t.Keys, slope)
  {
    var _ := PartsOfOrder(g, t, chunks, segs);
    forall slope: FeeFrac | slope.size > 0
      ensures D.Peak(C.Rates(g.fees, g.sizes, D.Flatten(segs)), slope) >= GainOver(g, t, t.Keys, slope)
    {
      ChunkedOrder(g, t, chunks, segs, slope);
    }
  }
}
