/** Loading an earlier linearization, one transaction after another. */
module Loading {
  import opened Climbs
  import opened Clusters
  import opened FeeRates
  import opened Forests
  import opened Improving
  import opened Optimality
  import opened Orders
  import opened Sequences
  import C = Chunking

  /** The chunks in `S` hold the transactions of `order` and depend on one
      another strictly; every other chunk is still one transaction. */
  ghost predicate LoadedSoFar(g: Cluster, t: Forest, S: set<nat>, order: seq<nat>) {
    && Placed(g, t, S, order) && TopologicalIn(g, t, S)
    && C.Priced(g.fees, g.sizes, order) && Loaded(g, t, S, order)
  }

  ghost predicate Placed(g: Cluster, t: Forest, S: set<nat>, order: seq<nat>) {
    && Chunked(g, t) && S <= t.Keys && Singles(t, S)
    && TxsOf(t, S) == Elements(order)
  }

  /** Every chunk but those in `S` is one transaction. */
  ghost predicate Singles(t: Forest, S: set<nat>) {
    forall k :: k in t && k !in S ==> |t[k].txs| == 1
  }

  lemma OnlyOne(txs: set<nat>, x: nat)
    requires |txs| == 1 && x in txs
    ensures txs == {x}
  {
    assert |txs - {x}| == 0;
  }

  /** A transaction is in a set of chunks where its chunk is. */
  lemma TxIn(g: Cluster, t: Forest, S: set<nat>, x: nat, k: nat)
    requires Chunked(g, t) && S <= t.Keys && k in t && x in t[k].txs
    ensures x in TxsOf(t, S) <==> k in S
  {
    if x in TxsOf(t, S) {
      var j :| j in S && x in t[j].txs;
    }
  }

  /** A closed set of chunks depends on nothing else. */
  lemma ClosedNeeds(g: Cluster, t: Forest, S: set<nat>, k: nat, z: nat)
    requires Chunked(g, t) && S <= t.Keys && ClosedIn(g, TxsOf(t, S))
    requires k in S && z in t && DependsOn(g, t, k, z)
    ensures z in S
  {
    var c, p :| c in t[k].txs && p in t[z].txs && p in g.parents[c];
    TxIn(g, t, S, c, k);
    TxIn(g, t, S, p, z);
  }

  lemma LastIsNew(order: seq<nat>, x: nat)
    requires Distinct(order + [x])
    ensures x !in Elements(order) && Distinct(order)
  {
    var all := order + [x];
    assert all[|order|] == x;
    forall i | 0 <= i < |order|
      ensures order[i] != x
    {
      assert all[i] == order[i];
    }
    forall i, j | 0 <= i < j < |order|
      ensures order[i] != order[j]
    {
      assert all[i] == order[i] && all[j] == order[j];
    }
  }

  /** The next transaction's chunk. */
  lemma NextChunk(g: Cluster, t: Forest, S: set<nat>, order: seq<nat>, x: nat, m: nat)
    requires Chunked(g, t) && S <= t.Keys && TxsOf(t, S) == Elements(order)
    requires Singles(t, S)
    requires Distinct(order + [x]) && m in t && x in t[m].txs
    ensures m !in S && t[m].txs == {x}
  {
    LastIsNew(order, x);
    TxIn(g, t, S, x, m);
    OnlyOne(t[m].txs, x);
  }

  lemma PrefixParentsFirst(g: Cluster, order: seq<nat>, x: nat)
    requires ValidCluster(g) && ParentsFirst(g, order + [x])
    ensures ParentsFirst(g, order) && ClosedIn(g, Elements(order))
    ensures x in g.txs && g.parents[x] <= Elements(order)
  {
    var all := order + [x];
    forall i | 0 <= i < |order|
      ensures order[i] in g.txs && g.parents[order[i]] <= Elements(order[..i])
    {
      assert all[i] == order[i] && all[..i] == order[..i];
    }
    assert all[|order|] == x && all[..|order|] == order;
    PrefixClosed(g, order, |order|);
    assert order[..|order|] == order;
  }

  lemma NextNeeds(g: Cluster, t: Forest, S: set<nat>, x: nat, m: nat, z: nat)
    requires Chunked(g, t) && S <= t.Keys && x in g.txs && g.parents[x] <= TxsOf(t, S)
    requires m in t && t[m].txs == {x} && z in t && DependsOn(g, t, m, z)
    ensures z in S
  {
    var c, p :| c in t[m].txs && p in t[z].txs && p in g.parents[c];
    TxIn(g, t, S, p, z);
  }

  lemma StartsClimbing(g: Cluster, t: Forest, S: set<nat>, m: nat)
    requires Chunked(g, t) && S <= t.Keys && m in t && m !in S && TopologicalIn(g, t, S)
    requires forall z :: z in t && DependsOn(g, t, m, z) ==> z in S
    requires forall k, z :: k in S && z in t && DependsOn(g, t, k, z) ==> z in S
    ensures Climbing(g, t, S + {m}, m, BOTTOM, BOTTOM)
  {
    assert S + {m} - {m} == S;
  }

  /** The next transaction's chunk can start to climb. */
  lemma NextClimbs(g: Cluster, t: Forest, S: set<nat>, order: seq<nat>, x: nat, m: nat)
    requires LoadedSoFar(g, t, S, order) && Distinct(order + [x]) && ParentsFirst(g, order + [x])
    requires m in t && x in t[m].txs
    ensures m !in S && t[m].txs == {x} && Climbing(g, t, S + {m}, m, BOTTOM, BOTTOM)
  {
    NextChunk(g, t, S, order, x, m);
    PrefixParentsFirst(g, order, x);
    forall z | z in t && DependsOn(g, t, m, z)
      ensures z in S
    {
      NextNeeds(g, t, S, x, m, z);
    }
    forall k, z | k in S && z in t && DependsOn(g, t, k, z)
      ensures z in S
    {
      ClosedNeeds(g, t, S, k, z);
    }
    StartsClimbing(g, t, S, m);
  }

  lemma TxsWithin(g: Cluster, t: Forest, S: set<nat>)
    requires Chunked(g, t) && S <= t.Keys
    ensures TxsOf(t, S) <= g.txs
  {
  }

  /** The transactions of some chunks are those that are in no other. */
  lemma TxsBesides(g: Cluster, t: Forest, S: set<nat>)
    requires Chunked(g, t) && S <= t.Keys
    ensures TxsOf(t, S) == TxsOf(t, t.Keys) - TxsOf(t, t.Keys - S)
  {
    forall j, k | j in S && k in t.Keys - S
      ensures t[j].txs !! t[k].txs
    {
    }
  }

  lemma TxsOfSame(t: Forest, t': Forest, K: set<nat>)
    requires SameChunks(t, t', K)
    ensures TxsOf(t', K) == TxsOf(t, K)
  {
  }

  lemma OutsideGrown(t: Forest, S: set<nat>, m: nat, t': Forest, S': set<nat>, m': nat)
    requires Grown(t, S, m, t', S', m')
    ensures SameChunks(t, t', t.Keys - S) && t'.Keys - S' == t.Keys - S && S <= t.Keys && S' <= t'.Keys
  {
    forall k | k in t.Keys - S
      ensures k in t' && t[k].txs == t'[k].txs
    {
      assert k in t'.Keys - S';
    }
  }

  /** A run of merges moves no transaction in or out. */
  lemma SameTxs(g: Cluster, t: Forest, S: set<nat>, m: nat, t': Forest, S': set<nat>, m': nat)
    requires Chunked(g, t) && Chunked(g, t') && Grown(t, S, m, t', S', m')
    requires TxsOf(t, t.Keys) == g.txs && TxsOf(t', t'.Keys) == g.txs
    ensures TxsOf(t', S') == TxsOf(t, S)
  {
    OutsideGrown(t, S, m, t', S', m');
    TxsBesides(g, t, S);
    TxsBesides(g, t', S');
    TxsOfSame(t, t', t.Keys - S);
  }

  lemma StillSingles(t: Forest, S: set<nat>, m: nat, t': Forest, S': set<nat>, m': nat)
    requires Grown(t, S + {m}, m, t', S', m') && Singles(t, S)
    ensures Singles(t', S')
  {
    forall k | k in t' && k !in S'
      ensures |t'[k].txs| == 1
    {
      assert k in t'.Keys - S';
      assert k in t.Keys - (S + {m});
    }
  }

  lemma AppendElements(order: seq<nat>, x: nat)
    ensures Elements(order + [x]) == Elements(order) + {x}
  {
  }

  lemma NextPlaced(g: Cluster, t: Forest, S: set<nat>, order: seq<nat>, x: nat, m: nat, t': Forest, S': set<nat>,
                   m': nat)
    requires Placed(g, t, S, order) && m in t && t[m].txs == {x}
    requires Chunked(g, t') && Grown(t, S + {m}, m, t', S', m')
    requires TxsOf(t', S') == TxsOf(t, S) + {x}
    ensures Placed(g, t', S', order + [x])
  {
    AppendElements(order, x);
    StillSingles(t, S, m, t', S', m');
  }

  lemma RunEnd(g: Cluster, t: Forest, S: set<nat>, m: nat, t': Forest, S': set<nat>, m': nat, rho: FeeFrac)
    requires Running(g, t, S, m, t', S', m', rho, BOTTOM) && AtRest(g, t', m')
    ensures Grown(t, S, m, t', S', m') && Chunked(g, t') && S' <= t'.Keys && TopologicalIn(g, t', S')
  {
    ClimbEnd(g, t', S', m', rho, BOTTOM);
  }

  /** Once the next transaction's chunk is at rest. */
  lemma NextLoaded(g: Cluster, t: Forest, S: set<nat>, order: seq<nat>, x: nat, m: nat, t': Forest, S': set<nat>,
                   m': nat, rho: FeeFrac)
    requires LoadedSoFar(g, t, S, order) && Distinct(order + [x]) && x in g.txs && m in t && t[m].txs == {x} && m !in S
    requires Running(g, t, S + {m}, m, t', S', m', rho, BOTTOM) && AtRest(g, t', m')
    requires S' <= t'.Keys && TxsOf(t', S') == TxsOf(t, S) + {x}
    ensures LoadedSoFar(g, t', S', order + [x])
  {
    assert Placed(g, t', S', order + [x]) by {
      RunEnd(g, t, S + {m}, m, t', S', m', rho);
      NextPlaced(g, t, S, order, x, m, t', S', m');
    }
    assert TopologicalIn(g, t', S') by {
      RunEnd(g, t, S + {m}, m, t', S', m', rho);
    }
    assert C.Priced(g.fees, g.sizes, order + [x]) && Loaded(g, t', S', order + [x]) by {
      NextGain(g, t, S, order, x, m, t', S', m', rho);
    }
  }

  lemma NextTxs(g: Cluster, t: Forest, S: set<nat>, m: nat, t': Forest, S': set<nat>, m': nat)
    requires Chunked(g, t) && Chunked(g, t') && m in t && Grown(t, S + {m}, m, t', S', m')
    requires S <= t.Keys && TxsOf(t, t.Keys) == g.txs && TxsOf(t', t'.Keys) == g.txs
    ensures TxsOf(t', S') == TxsOf(t, S) + t[m].txs
  {
    SameTxs(g, t, S + {m}, m, t', S', m');
    TxsAdd(t, S, m);
  }

  /** The whole of loading one more transaction. */
  lemma RunLoaded(g: Cluster, t: Forest, S: set<nat>, order: seq<nat>, x: nat, m: nat, t': Forest, S': set<nat>,
                  m': nat, rho: FeeFrac)
    requires LoadedSoFar(g, t, S, order) && Distinct(order + [x]) && ParentsFirst(g, order + [x])
    requires m in t && x in t[m].txs
    requires Running(g, t, S + {m}, m, t', S', m', rho, BOTTOM) && AtRest(g, t', m')
    requires S' <= t'.Keys && TxsOf(t', S') == TxsOf(t, S) + t[m].txs
    ensures LoadedSoFar(g, t', S', order + [x])
  {
    assert m !in S && t[m].txs == {x} by {
      NextChunk(g, t, S, order, x, m);
    }
    assert x in g.txs by {
      PrefixParentsFirst(g, order, x);
    }
    NextLoaded(g, t, S, order, x, m, t', S', m', rho);
  }

  lemma NextGain(g: Cluster, t: Forest, S: set<nat>, order: seq<nat>, x: nat, m: nat, t': Forest, S': set<nat>, m': nat,
                 rho: FeeFrac)
    requires Placed(g, t, S, order) && C.Priced(g.fees, g.sizes, order) && Loaded(g, t, S, order)
    requires Distinct(order + [x]) && x in g.txs && m in t && t[m].txs == {x} && m !in S
    requires Running(g, t, S + {m}, m, t', S', m', rho, BOTTOM)
    ensures C.Priced(g.fees, g.sizes, order + [x]) && Loaded(g, t', S', order + [x])
  {
    AppendElements(order, x);
    TxsWithin(g, t, S);
    assert forall y :: y in order + [x] ==> y in Elements(order + [x]);
    OrderPriced(g, order + [x]);
    LoadedNext(g, t, S, m, t', S', m', rho, order, x);
  }

  lemma NextPrefix(order: seq<nat>, i: nat)
    requires i < |order|
    ensures order[i] in order && order[..i + 1] == order[..i] + [order[i]]
  {
  }

  lemma OrderSoFar(g: Cluster, order: seq<nat>, i: nat)
    requires ValidCluster(g) && IsOrder(g, order) && i < |order|
    ensures Distinct(order[..i] + [order[i]]) && ParentsFirst(g, order[..i] + [order[i]])
  {
    var p := order[..i] + [order[i]];
    assert p == order[..i + 1];
    forall k | 0 <= k < |p|
      ensures p[k] in g.txs && g.parents[p[k]] <= Elements(p[..k])
    {
      assert p[k] == order[k] && p[..k] == order[..k];
    }
  }

  lemma NothingLoaded(g: Cluster, t: Forest)
    requires ValidForest(g, t) && Singles(t, {})
    ensures LoadedSoFar(g, t, {}, [])
  {
    assert TxsOf(t, {}) == {} == Elements([]);
  }

  /** Once every transaction is loaded. */
  lemma AllLoaded(g: Cluster, t: Forest, S: set<nat>, order: seq<nat>)
    requires LoadedSoFar(g, t, S, order[..|order|]) && Elements(order) == g.txs
    ensures S == t.Keys && Topological(g, t) && C.Priced(g.fees, g.sizes, order) && Loaded(g, t, t.Keys, order)
  {
    assert order[..|order|] == order;
    EveryChunk(g, t, S);
  }

  lemma EveryChunk(g: Cluster, t: Forest, S: set<nat>)
    requires Chunked(g, t) && S <= t.Keys && TxsOf(t, S) == g.txs
    ensures S == t.Keys
  {
    forall k | k in t
      ensures k in S
    {
      var x :| x in t[k].txs;
      TxIn(g, t, S, x, k);
    }
  }
}
