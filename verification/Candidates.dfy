/** Scanning the chunks that one chunk reaches for the one to merge it with. */
module Candidates {
  import opened Clusters
  import opened FeeRates
  import opened Forests
  import opened Optimality
  import opened Options

  /** Of the chunks in `seen`, all of which `k` depends on, `best` has the
      lowest feerate among those at or below that of `k`. */
  ghost predicate Scanned(g: Cluster, t: Forest, k: nat, seen: set<nat>, best: Option<nat>, bestRate: FeeFrac)
    requires Chunked(g, t) && k in t
  {
    && seen <= t.Keys && k !in seen
    && (forall z :: z in seen ==> DependsOn(g, t, k, z))
    && match best
       case None => bestRate == RateOf(g, t, k) && forall z :: z in seen ==> Below(bestRate, RateOf(g, t, z))
       case Some(b) =>
         && b in seen && bestRate == RateOf(g, t, b) && AtMost(bestRate, RateOf(g, t, k))
         && forall z :: z in seen ==> AtMost(bestRate, RateOf(g, t, z))
  }

  /** One more chunk: taken where it is not above the best so far. */
  lemma ScanTaken(g: Cluster, t: Forest, k: nat, seen: set<nat>, best: Option<nat>, bestRate: FeeFrac, r: nat)
    requires Chunked(g, t) && k in t && Scanned(g, t, k, seen, best, bestRate)
    requires r in t && r != k && DependsOn(g, t, k, r) && AtMost(RateOf(g, t, r), bestRate)
    ensures Scanned(g, t, k, seen + {r}, Some(r), RateOf(g, t, r))
  {
    var f := RateOf(g, t, r);
    CrossFlip(f, f);
    CrossFlip(RateOf(g, t, k), RateOf(g, t, k));
    Chain(f, bestRate, RateOf(g, t, k));
    forall z | z in seen
      ensures AtMost(f, RateOf(g, t, z))
    {
      NotBoth(bestRate, RateOf(g, t, z));
      Chain(f, bestRate, RateOf(g, t, z));
    }
  }

  lemma ScanPassed(g: Cluster, t: Forest, k: nat, seen: set<nat>, best: Option<nat>, bestRate: FeeFrac, r: nat)
    requires Chunked(g, t) && k in t && Scanned(g, t, k, seen, best, bestRate)
    requires r in t && r != k && DependsOn(g, t, k, r)
    requires AtMost(bestRate, RateOf(g, t, r)) && (best.None? ==> Below(bestRate, RateOf(g, t, r)))
    ensures Scanned(g, t, k, seen + {r}, best, bestRate)
  {
  }

  /** What `k` reaches and is not in a chunk that was seen. */
  ghost function Unseen(g: Cluster, t: Forest, k: nat, seen: set<nat>): set<nat>
    requires Chunked(g, t) && k in t && seen <= t.Keys
  {
    Up(g, t[k].txs) - t[k].txs - TxsOf(t, seen)
  }

  lemma ReachedChunk(g: Cluster, t: Forest, k: nat, seen: set<nat>, x: nat, r: nat)
    requires Chunked(g, t) && k in t && seen <= t.Keys && r in t
    requires x in Unseen(g, t, k, seen) && x in t[r].txs
    ensures r != k && r !in seen && DependsOn(g, t, k, r)
  {
    var c, p :| c in t[k].txs && p in g.parents[c] && p == x;
  }

  lemma MinusBoth(a: set<nat>, b: set<nat>, c: set<nat>)
    ensures a - b - c == a - (b + c)
  {
  }

  lemma LessUnseen(before: set<nat>, chunk: set<nat>, x: nat)
    requires x in before && x in chunk
    ensures |before - chunk| < |before|
  {
    assert before == (before - chunk) + (before * chunk) && x in before * chunk;
  }

  /** The chunk of something that `k` reaches. */
  lemma Reached(g: Cluster, t: Forest, k: nat, seen: set<nat>, x: nat, r: nat)
    requires Chunked(g, t) && k in t && seen <= t.Keys && r in t
    requires x in Unseen(g, t, k, seen) && x in t[r].txs
    ensures r != k && r !in seen && DependsOn(g, t, k, r)
    ensures Unseen(g, t, k, seen) - t[r].txs == Unseen(g, t, k, seen + {r})
    ensures |Unseen(g, t, k, seen + {r})| < |Unseen(g, t, k, seen)|
  {
    ReachedChunk(g, t, k, seen, x, r);
    TxsAdd(t, seen, r);
    MinusBoth(Up(g, t[k].txs) - t[k].txs, TxsOf(t, seen), t[r].txs);
    LessUnseen(Unseen(g, t, k, seen), t[r].txs, x);
  }

  /** Once everything was seen. */
  lemma ScanEnd(g: Cluster, t: Forest, k: nat, seen: set<nat>, best: Option<nat>, bestRate: FeeFrac)
    requires Chunked(g, t) && k in t && Scanned(g, t, k, seen, best, bestRate) && Unseen(g, t, k, seen) == {}
    ensures best.None? ==> AtRest(g, t, k)
    ensures best.Some? ==> MergeCandidate(g, t, k, best.value)
  {
    forall z | z in t && z != k && DependsOn(g, t, k, z)
      ensures z in seen
    {
      var c, p :| c in t[k].txs && p in t[z].txs && p in g.parents[c];
      assert p in Up(g, t[k].txs);
      assert p !in Unseen(g, t, k, seen);
      var j :| j in seen && p in t[j].txs;
      assert j == z;
    }
  }
}
