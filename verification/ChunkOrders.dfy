/** The order in which chunks, and the transactions of each, can be put out. */
module ChunkOrders {
  import opened ClusterGraphs
  import opened Clusters
  import opened FeeRates
  import opened Forests
  import opened Optimality
  import opened Orders
  import opened Sequences
  import D = Diagrams

  /** All that `k` depends on is in the chunks of `out`. */
  ghost predicate Ready(g: Cluster, t: Forest, out: set<nat>, k: nat)
    requires Chunked(g, t) && out <= t.Keys && k in t
  {
    Up(g, t[k].txs) - t[k].txs <= TxsOf(t, out)
  }

  lemma FirstReaches(g: Cluster, t: Forest, out: set<nat>, k: nat, p: nat, z: nat)
    requires Chunked(g, t) && out <= t.Keys && k in t && k !in out && FirstIn(g, t, t.Keys - out, k)
    requires p in Up(g, t[k].txs) - t[k].txs && z in t && p in t[z].txs
    ensures z in out && p in TxsOf(t, out)
  {
    var c :| c in t[k].txs && p in g.parents[c];
    assert DependsOn(g, t, k, z);
  }

  lemma FirstIsReady(g: Cluster, t: Forest, out: set<nat>, k: nat)
    requires Chunked(g, t) && out <= t.Keys && TxsOf(t, t.Keys) == g.txs
    requires k in t && k !in out && FirstIn(g, t, t.Keys - out, k)
    ensures Ready(g, t, out, k)
  {
    forall p | p in Up(g, t[k].txs) - t[k].txs
      ensures p in TxsOf(t, out)
    {
      var z := ChunkWith(g, t, p);
      FirstReaches(g, t, out, k, p, z);
    }
  }

  lemma ChunkWith(g: Cluster, t: Forest, p: nat) returns (z: nat)
    requires Chunked(g, t) && p in TxsOf(t, t.Keys)
    ensures z in t && p in t[z].txs
  {
    z :| z in t && p in t[z].txs;
  }

  /** The chunks in `U` with the highest feerate, which is that of `h`. */
  ghost function Highest(g: Cluster, t: Forest, U: set<nat>, h: nat): set<nat>
    requires Chunked(g, t) && U <= t.Keys && h in t
  {
    set u | u in U && AtMost(RateOf(g, t, h), RateOf(g, t, u))
  }

  /** Among some chunks, one of the highest feerate depends on no other. */
  lemma HighestIsFirst(g: Cluster, t: Forest, U: set<nat>) returns (k: nat)
    requires Chunked(g, t) && WeaklyTopological(g, t) && AcyclicChunks(g, t) && U <= t.Keys && U != {}
    ensures FirstIn(g, t, U, k)
    ensures forall u :: u in U ==> AtMost(RateOf(g, t, u), RateOf(g, t, k))
  {
    var h := HighestFeerate(g, t, U);
    CrossFlip(RateOf(g, t, h), RateOf(g, t, h));
    var best := Highest(g, t, U, h);
    assert best <= t.Keys && h in best;
    k :| FirstIn(g, t, best, k);
    FirstOfHighest(g, t, U, h, k);
    forall u | u in U
      ensures AtMost(RateOf(g, t, u), RateOf(g, t, k))
    {
      Chain(RateOf(g, t, u), RateOf(g, t, h), RateOf(g, t, k));
    }
  }

  lemma FirstOfHighest(g: Cluster, t: Forest, U: set<nat>, h: nat, k: nat)
    requires Chunked(g, t) && WeaklyTopological(g, t) && U <= t.Keys && h in t
    requires FirstIn(g, t, Highest(g, t, U, h), k)
    ensures FirstIn(g, t, U, k)
  {
    forall y | y in U && y != k
      ensures !DependsOn(g, t, k, y)
    {
      if DependsOn(g, t, k, y) {
        Chain(RateOf(g, t, h), RateOf(g, t, k), RateOf(g, t, y));
      }
    }
  }

  /** So of those that depend on no other, the best is beaten by none at all. */
  lemma BestOfFirst(g: Cluster, t: Forest, U: set<nat>, k: nat)
    requires Chunked(g, t) && WeaklyTopological(g, t) && AcyclicChunks(g, t) && U <= t.Keys && k in U
    requires forall i :: i in U && FirstIn(g, t, U, i) ==> AtMost(RateOf(g, t, i), RateOf(g, t, k))
    ensures forall u :: u in U ==> AtMost(RateOf(g, t, u), RateOf(g, t, k))
  {
    var i := HighestIsFirst(g, t, U);
    forall u | u in U
      ensures AtMost(RateOf(g, t, u), RateOf(g, t, k))
    {
      Chain(RateOf(g, t, u), RateOf(g, t, i), RateOf(g, t, k));
    }
  }

  /** Of a chunk that was ready, some of whose transactions are out, another
      transaction is ready. */
  lemma NextReady(g: Cluster, txs: set<nat>, done: set<nat>) returns (x: nat)
    requires ValidCluster(g) && AcyclicTxs(g) && txs <= g.txs && Up(g, txs) - txs <= done && !(txs <= done)
    ensures x in txs && x !in done && g.parents[x] <= done
  {
    var rest := txs - done;
    assert rest <= g.txs && rest != {};
    x :| FirstTx(g, rest, x);
    forall p | p in g.parents[x]
      ensures p in done
    {
      assert p in Up(g, txs);
    }
  }

  /** What is out: whole chunks, best first, none of those that are left being
      better than any. */
  ghost predicate Emitted(g: Cluster, t: Forest, chunks: seq<nat>, segs: seq<seq<nat>>, order: seq<nat>) {
    && Chunked(g, t) && ChunkByChunk(t, chunks, segs) && order == D.Flatten(segs)
    && D.Sorted(ChunkRates(g, t, chunks))
    && (forall i, u :: 0 <= i < |chunks| && u in t && u !in Elements(chunks) ==>
          AtMost(RateOf(g, t, u), RateOf(g, t, chunks[i])))
    && Distinct(order) && ParentsFirst(g, order) && Elements(order) == TxsOf(t, Elements(chunks))
  }

  /** The transactions of one more chunk, its own parents out before them. */
  ghost predicate EmittedChunk(g: Cluster, done: set<nat>, txs: set<nat>, seg: seq<nat>)
    requires ValidCluster(g) && txs <= g.txs
  {
    && Distinct(seg) && Elements(seg) <= txs
    && forall i :: 0 <= i < |seg| ==> seg[i] in txs && g.parents[seg[i]] <= done + Elements(seg[..i])
  }

  lemma EmittedOneMore(g: Cluster, done: set<nat>, txs: set<nat>, seg: seq<nat>, x: nat)
    requires ValidCluster(g) && txs <= g.txs && EmittedChunk(g, done, txs, seg)
    requires x in txs && x !in Elements(seg) && g.parents[x] <= done + Elements(seg)
    ensures EmittedChunk(g, done, txs, seg + [x]) && Elements(seg + [x]) == Elements(seg) + {x}
  {
    var more := seg + [x];
    assert more[|seg|] == x && more[..|seg|] == seg;
    forall i | 0 <= i < |seg|
      ensures more[i] == seg[i] && more[..i] == seg[..i] && more[i] != x
    {
      assert seg[i] in Elements(seg);
    }
  }

  lemma OutOneMore(done: set<nat>, out: set<nat>, txs: set<nat>, x: nat)
    requires x in txs && x !in done + out
    ensures done + out + {x} == done + (out + {x}) && |txs - (out + {x})| < |txs - out|
  {
    assert txs - (out + {x}) == txs - out - {x};
  }

  lemma OutWhole(done: set<nat>, out: set<nat>, txs: set<nat>)
    requires out <= txs && txs <= done + out && txs !! done
    ensures out == txs && done + out == done + txs
  {
  }

  lemma JoinedOrder(g: Cluster, order: seq<nat>, txs: set<nat>, seg: seq<nat>)
    requires ValidCluster(g) && txs <= g.txs && Distinct(order) && ParentsFirst(g, order)
    requires EmittedChunk(g, Elements(order), txs, seg) && txs !! Elements(order)
    ensures Distinct(order + seg) && ParentsFirst(g, order + seg)
    ensures Elements(order + seg) == Elements(order) + Elements(seg)
  {
    var all, n := order + seg, |order|;
    forall i | 0 <= i < |all|
      ensures all[i] in g.txs && g.parents[all[i]] <= Elements(all[..i])
    {
      if i < n {
        assert all[i] == order[i] && all[..i] == order[..i];
      } else {
        assert all[i] == seg[i - n] && all[..i] == order + seg[..i - n];
      }
    }
    forall i, j | 0 <= i < j < |all|
      ensures all[i] != all[j]
    {
      JoinedDistinct(order, txs, seg, i, j);
    }
  }

  lemma JoinedDistinct(order: seq<nat>, txs: set<nat>, seg: seq<nat>, i: nat, j: nat)
    requires Distinct(order) && Distinct(seg) && Elements(seg) <= txs && txs !! Elements(order)
    requires i < j < |order| + |seg|
    ensures (order + seg)[i] != (order + seg)[j]
  {
    var n := |order|;
    if i < n <= j {
      assert order[i] in Elements(order) && seg[j - n] in Elements(seg);
    }
  }

  lemma SortedOneMore(g: Cluster, t: Forest, chunks: seq<nat>, k: nat)
    requires Chunked(g, t) && (forall i :: 0 <= i < |chunks| ==> chunks[i] in t) && k in t
    requires D.Sorted(ChunkRates(g, t, chunks))
    requires forall i :: 0 <= i < |chunks| ==> AtMost(RateOf(g, t, k), RateOf(g, t, chunks[i]))
    ensures D.Sorted(ChunkRates(g, t, chunks + [k]))
  {
    var more := chunks + [k];
    forall i, j | 0 <= i < j < |more|
      ensures Cross(ChunkRates(g, t, more)[i], ChunkRates(g, t, more)[j]) >= 0
    {
      if j < |chunks| {
        assert ChunkRates(g, t, more)[i] == ChunkRates(g, t, chunks)[i];
        assert ChunkRates(g, t, more)[j] == ChunkRates(g, t, chunks)[j];
      } else {
        CrossFlip(RateOf(g, t, chunks[i]), RateOf(g, t, k));
      }
    }
  }

  lemma TxsOfApart(g: Cluster, t: Forest, out: set<nat>, k: nat)
    requires Chunked(g, t) && out <= t.Keys && k in t && k !in out
    ensures t[k].txs !! TxsOf(t, out)
  {
    forall j | j in out
      ensures t[j].txs !! t[k].txs
    {
    }
  }

  lemma ByChunkOneMore(t: Forest, chunks: seq<nat>, segs: seq<seq<nat>>, k: nat, seg: seq<nat>)
    requires ChunkByChunk(t, chunks, segs) && k in t && k !in Elements(chunks)
    requires Distinct(seg) && Elements(seg) == t[k].txs
    ensures ChunkByChunk(t, chunks + [k], segs + [seg])
    ensures Elements(chunks + [k]) == Elements(chunks) + {k}
  {
    forall i, j | 0 <= i < j < |chunks + [k]|
      ensures (chunks + [k])[i] != (chunks + [k])[j]
    {
      assert chunks[i] in Elements(chunks);
    }
  }

  /** After one more whole chunk. */
  lemma EmittedNext(g: Cluster, t: Forest, chunks: seq<nat>, segs: seq<seq<nat>>, order: seq<nat>, k: nat,
                    seg: seq<nat>)
    requires Emitted(g, t, chunks, segs, order) && k in t && k !in Elements(chunks)
    requires forall u :: u in t && u !in Elements(chunks) ==> AtMost(RateOf(g, t, u), RateOf(g, t, k))
    requires EmittedChunk(g, Elements(order), t[k].txs, seg) && Elements(seg) == t[k].txs
    ensures Emitted(g, t, chunks + [k], segs + [seg], order + seg)
  {
    ByChunkOneMore(t, chunks, segs, k, seg);
    assert Elements(chunks) <= t.Keys;
    TxsOfApart(g, t, Elements(chunks), k);
    JoinedOrder(g, order, t[k].txs, seg);
    TxsAdd(t, Elements(chunks), k);
    SortedOneMore(g, t, chunks, k);
    D.FlattenAppend(segs, seg);
  }
}
