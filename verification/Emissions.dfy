/** Putting out transactions once all their parents are out: counts of the
    dependencies that are left, and the entries that are ready. */
module Emissions {
  import opened Bits
  import opened Clusters
  import opened FeeRates
  import opened ForestStates
  import opened Trees

  /** What a heap orders its entries by: feerate, highest first, then size,
      smallest first, then the fallback key, then the index. */
  datatype Entry = Entry(rate: FeeFrac, key: int, id: nat)

  predicate Before(a: Entry, b: Entry) {
    || Cross(a.rate, b.rate) > 0
    || (Cross(a.rate, b.rate) == 0
        && (|| a.rate.size < b.rate.size
            || (a.rate.size == b.rate.size && (a.key < b.key || (a.key == b.key && a.id < b.id)))))
  }

  lemma BeforeChain(a: Entry, b: Entry, c: Entry)
    requires a.rate.size > 0 && b.rate.size > 0 && c.rate.size > 0
    requires Before(a, b) && Before(b, c)
    ensures Before(a, c)
  {
    CrossTrans(a.rate, b.rate, c.rate);
    CrossFlip(a.rate, b.rate);
    CrossFlip(b.rate, c.rate);
    CrossFlip(a.rate, c.rate);
    if Cross(a.rate, b.rate) == 0 && Cross(b.rate, c.rate) == 0 {
      CrossTrans(c.rate, b.rate, a.rate);
    }
  }

  lemma BeforeOrAfter(a: Entry, b: Entry)
    requires a.id != b.id
    ensures Before(a, b) || Before(b, a)
    ensures Before(a, b) ==> Cross(a.rate, b.rate) >= 0
  {
    CrossFlip(a.rate, b.rate);
  }

  lemma BeforeAtMost(a: Entry, b: Entry)
    requires a == b || Before(a, b)
    ensures AtMost(b.rate, a.rate)
  {
    CrossFlip(a.rate, b.rate);
  }

  /** The entry that comes before all others. */
  method LeastOf(ready: set<nat>, entry: nat --> Entry) returns (k: nat)
    requires ready != {}
    requires forall i :: i in ready ==> entry.requires(i) && entry(i).id == i && entry(i).rate.size > 0
    ensures k in ready && forall i :: i in ready && i != k ==> Before(entry(k), entry(i))
  {
    k := Lowest(ready);
    var todo := ready - {k};
    while todo != {}
      invariant todo <= ready && k in ready - todo
      invariant forall i :: i in ready - todo && i != k ==> Before(entry(k), entry(i))
    {
      var j := Lowest(todo);
      todo := todo - {j};
      BeforeOrAfter(entry(j), entry(k));
      if Before(entry(j), entry(k)) {
        forall i | i in ready - todo && i != k && i != j
          ensures Before(entry(j), entry(i))
        {
          BeforeChain(entry(j), entry(k), entry(i));
        }
        k := j;
      }
    }
  }

  /** The highest key of a set. */
  function HighestKey(key: nat -> int, txs: set<nat>): (h: int)
    requires txs != {}
    ensures (forall x :: x in txs ==> key(x) <= h) && exists x :: x in txs && key(x) == h
    decreases |txs|
  {
    var x := Lowest(txs);
    if txs == {x} then key(x) else
      assert txs == {x} + (txs - {x});
      var h := HighestKey(key, txs - {x});
      if key(x) > h then key(x) else h
  }

  // --- the dependencies that are left ---

  /** The dependencies on the transactions of `done`. */
  ghost function EdgesFrom(g: Cluster, done: set<nat>): set<Dep>
    requires ValidCluster(g) && done <= g.txs
  {
    set p, c | p in done && c in g.children[p] :: Dep(p, c)
  }

  /** The parents of `x` that it still waits for. */
  ghost function Left(g: Cluster, x: nat, gone: set<Dep>): set<nat>
    requires ValidCluster(g) && x in g.txs
  {
    set p | p in g.parents[x] && Dep(p, x) !in gone
  }

  /** The dependencies, of those in `some`, that the chunk `txs` still waits for. */
  ghost function LeftFrom(g: Cluster, some: set<nat>, txs: set<nat>, gone: set<Dep>): set<Dep>
    requires ValidCluster(g) && some <= g.txs
  {
    set c, p | c in some && p in g.parents[c] && p !in txs && Dep(p, c) !in gone :: Dep(p, c)
  }

  ghost function LeftOf(g: Cluster, txs: set<nat>, gone: set<Dep>): set<Dep>
    requires ValidCluster(g) && txs <= g.txs
  {
    LeftFrom(g, txs, txs, gone)
  }

  /** The counts of the dependencies that are left, and what is ready. */
  datatype Counts = Counts(txDeps: seq<int>, chunkDeps: seq<int>, readyTx: set<nat>, readyChunks: set<nat>)

  ghost predicate Counted(g: Cluster, s: State, gone: set<Dep>, txDeps: seq<int>, chunkDeps: seq<int>)
    requires Shaped(g, s) && SetsSummed(g, s)
  {
    && |txDeps| == |g.fees| && |chunkDeps| == |s.setTx|
    && (forall x :: x in g.txs ==> txDeps[x] == |Left(g, x, gone)|)
    && forall k :: k in s.chunkIdxs ==> chunkDeps[k] == |LeftOf(g, s.setTx[k], gone)|
  }

  ghost predicate TxsEmitting(g: Cluster, gone: set<Dep>, done: set<nat>, txs: set<nat>, ready: set<nat>)
    requires ValidCluster(g)
  {
    && done <= g.txs && txs <= g.txs
    && (forall x :: x in done ==> Left(g, x, gone) == {})
    && forall x :: x in ready <==> x in txs && x !in done && Left(g, x, gone) == {}
  }

  ghost predicate ChunksEmitting(g: Cluster, s: State, gone: set<Dep>, out: set<nat>, ready: set<nat>)
    requires Shaped(g, s) && SetsSummed(g, s)
  {
    && out <= s.chunkIdxs
    && (forall k :: k in out ==> LeftOf(g, s.setTx[k], gone) == {})
    && forall k :: k in ready <==> k in s.chunkIdxs && k !in out && LeftOf(g, s.setTx[k], gone) == {}
  }

  /** The transactions of `done` are out, and the chunks of `out`, the last of
      which may not be complete: it is `txs`. */
  ghost predicate Emitting(g: Cluster, s: State, gone: set<Dep>, done: set<nat>, out: set<nat>, txs: set<nat>,
                           n: Counts)
    requires Shaped(g, s) && SetsSummed(g, s)
  {
    && Counted(g, s, gone, n.txDeps, n.chunkDeps)
    && TxsEmitting(g, gone, done, txs, n.readyTx)
    && ChunksEmitting(g, s, gone, out, n.readyChunks)
  }

  lemma LeftAfter(g: Cluster, gone: set<Dep>, tx: nat, c: nat, x: nat)
    requires ValidCluster(g) && tx in g.txs && c in g.children[tx] && x in g.txs
    ensures Left(g, x, gone + {Dep(tx, c)}) == if x == c then Left(g, x, gone) - {tx} else Left(g, x, gone)
    ensures x == c && Dep(tx, c) !in gone ==> tx in Left(g, x, gone)
  {
  }

  lemma LeftOfAfter(g: Cluster, gone: set<Dep>, tx: nat, c: nat, txs: set<nat>)
    requires ValidCluster(g) && tx in g.txs && c in g.children[tx] && txs <= g.txs
    ensures LeftOf(g, txs, gone + {Dep(tx, c)}) == LeftOf(g, txs, gone) - {Dep(tx, c)}
    ensures Dep(tx, c) in LeftOf(g, txs, gone) <==> c in txs && tx !in txs && Dep(tx, c) !in gone
  {
  }

  ghost function LessOne(counts: seq<int>, i: nat): seq<int>
    requires i < |counts|
  {
    counts[i := counts[i] - 1]
  }

  /** The counts after one more dependency is gone. */
  lemma CountedAfter(g: Cluster, s: State, gone: set<Dep>, txDeps: seq<int>, chunkDeps: seq<int>, tx: nat, c: nat)
    requires Shaped(g, s) && SetsSummed(g, s) && ChunksListed(g, s) && Counted(g, s, gone, txDeps, chunkDeps)
    requires tx in g.txs && c in g.children[tx] && Dep(tx, c) !in gone
    ensures c in g.txs && s.chunkIdx[c] < |chunkDeps|
    ensures Counted(g, s, gone + {Dep(tx, c)}, LessOne(txDeps, c),
                    if s.chunkIdx[c] != s.chunkIdx[tx] then LessOne(chunkDeps, s.chunkIdx[c]) else chunkDeps)
  {
    var gone' := gone + {Dep(tx, c)};
    forall x | x in g.txs
      ensures LessOne(txDeps, c)[x] == |Left(g, x, gone')|
    {
      LeftAfter(g, gone, tx, c, x);
    }
    var k := s.chunkIdx[c];
    assert k in s.chunkIdxs;
    forall j | j in s.chunkIdxs
      ensures (if k != s.chunkIdx[tx] then LessOne(chunkDeps, k) else chunkDeps)[j] == |LeftOf(g, s.setTx[j], gone')|
    {
      ChunkCountAfter(g, s, gone, chunkDeps, tx, c, j);
    }
  }

  lemma ChunkCountAfter(g: Cluster, s: State, gone: set<Dep>, chunkDeps: seq<int>, tx: nat, c: nat, j: nat)
    requires Shaped(g, s) && SetsSummed(g, s) && ChunksListed(g, s) && |chunkDeps| == |s.setTx|
    requires tx in g.txs && c in g.children[tx] && Dep(tx, c) !in gone && j in s.chunkIdxs
    requires chunkDeps[j] == |LeftOf(g, s.setTx[j], gone)| && c in g.txs && s.chunkIdx[c] < |chunkDeps|
    ensures (if s.chunkIdx[c] != s.chunkIdx[tx] then LessOne(chunkDeps, s.chunkIdx[c]) else chunkDeps)[j]
         == |LeftOf(g, s.setTx[j], gone + {Dep(tx, c)})|
  {
    LeftOfAfter(g, gone, tx, c, s.setTx[j]);
  }

  lemma TxsAfter(g: Cluster, gone: set<Dep>, done: set<nat>, txs: set<nat>, ready: set<nat>, tx: nat, c: nat,
                 ready': set<nat>)
    requires ValidCluster(g) && TxsEmitting(g, gone, done, txs, ready)
    requires tx in g.txs && c in g.children[tx] && Dep(tx, c) !in gone && c in g.txs
    requires ready' == if Left(g, c, gone + {Dep(tx, c)}) == {} && c in txs then ready + {c} else ready
    ensures TxsEmitting(g, gone + {Dep(tx, c)}, done, txs, ready')
  {
    LeftAfter(g, gone, tx, c, c);
    assert c !in done;
    forall x | x in g.txs && x != c
      ensures Left(g, x, gone + {Dep(tx, c)}) == Left(g, x, gone)
    {
      LeftAfter(g, gone, tx, c, x);
    }
  }

  lemma ChunksAfter(g: Cluster, s: State, gone: set<Dep>, out: set<nat>, ready: set<nat>, tx: nat, c: nat,
                    ready': set<nat>)
    requires Shaped(g, s) && SetsSummed(g, s) && ChunksListed(g, s) && ChunksEmitting(g, s, gone, out, ready)
    requires tx in g.txs && c in g.children[tx] && Dep(tx, c) !in gone && c in g.txs
    requires var k := s.chunkIdx[c];
             ready' == if k != s.chunkIdx[tx] && LeftOf(g, s.setTx[k], gone + {Dep(tx, c)}) == {} then ready + {k}
                       else ready
    ensures ChunksEmitting(g, s, gone + {Dep(tx, c)}, out, ready')
  {
    var gone', k := gone + {Dep(tx, c)}, s.chunkIdx[c];
    LeftOfAfter(g, gone, tx, c, s.setTx[k]);
    forall j | j in s.chunkIdxs && (j != k || k == s.chunkIdx[tx])
      ensures LeftOf(g, s.setTx[j], gone') == LeftOf(g, s.setTx[j], gone)
    {
      LeftOfAfter(g, gone, tx, c, s.setTx[j]);
    }
  }

  /** One more dependency is gone: of `c` on `tx`, which is in the chunk `txs`. */
  lemma EmittingAfter(g: Cluster, s: State, gone: set<Dep>, done: set<nat>, out: set<nat>, txs: set<nat>, n: Counts,
                      tx: nat, c: nat, n': Counts)
    requires Shaped(g, s) && SetsSummed(g, s) && ChunksListed(g, s) && Emitting(g, s, gone, done, out, txs, n)
    requires tx in g.txs && c in g.children[tx] && Dep(tx, c) !in gone && c in g.txs && s.chunkIdx[c] < |n.chunkDeps|
    requires var k := s.chunkIdx[c];
             && n'.txDeps == LessOne(n.txDeps, c)
             && n'.chunkDeps == (if k != s.chunkIdx[tx] then LessOne(n.chunkDeps, k) else n.chunkDeps)
             && n'.readyTx == (if n'.txDeps[c] == 0 && c in txs then n.readyTx + {c} else n.readyTx)
             && n'.readyChunks == (if k != s.chunkIdx[tx] && n'.chunkDeps[k] == 0 then n.readyChunks + {k}
                                   else n.readyChunks)
    ensures Emitting(g, s, gone + {Dep(tx, c)}, done, out, txs, n')
  {
    CountedAfter(g, s, gone, n.txDeps, n.chunkDeps, tx, c);
    assert s.chunkIdx[c] in s.chunkIdxs;
    TxsAfter(g, gone, done, txs, n.readyTx, tx, c, n'.readyTx);
    ChunksAfter(g, s, gone, out, n.readyChunks, tx, c, n'.readyChunks);
  }

  ghost function EdgesTo(tx: nat, kids: set<nat>): set<Dep> {
    set c | c in kids :: Dep(tx, c)
  }

  lemma EdgesToMore(edges: set<Dep>, tx: nat, kids: set<nat>, todo: set<nat>, c: nat)
    requires todo <= kids && c in todo
    ensures edges + EdgesTo(tx, kids - (todo - {c})) == edges + EdgesTo(tx, kids - todo) + {Dep(tx, c)}
    ensures Dep(tx, c) !in EdgesTo(tx, kids - todo)
  {
    SeenOneMore(kids, todo, c);
  }

  lemma EdgesToNone(edges: set<Dep>, tx: nat, kids: set<nat>)
    ensures edges + EdgesTo(tx, kids - kids) == edges && kids - {} == kids
  {
  }

  /** All of a transaction's dependencies, once those of `done` are gone. */
  lemma EdgesFromMore(g: Cluster, done: set<nat>, tx: nat)
    requires ValidCluster(g) && done <= g.txs && tx in g.txs
    ensures EdgesFrom(g, done + {tx}) == EdgesFrom(g, done) + EdgesTo(tx, g.children[tx])
    ensures tx !in done ==> forall c :: Dep(tx, c) !in EdgesFrom(g, done)
  {
  }

  lemma NothingLeft(g: Cluster, done: set<nat>, x: nat)
    requires ValidCluster(g) && done <= g.txs && x in g.txs
    ensures Left(g, x, EdgesFrom(g, done)) == {} <==> g.parents[x] <= done
  {
    if Left(g, x, EdgesFrom(g, done)) == {} {
      forall p | p in g.parents[x]
        ensures p in done
      {
        assert p !in Left(g, x, EdgesFrom(g, done));
      }
    }
  }

  lemma NothingLeftOf(g: Cluster, done: set<nat>, txs: set<nat>)
    requires ValidCluster(g) && done <= g.txs && txs <= g.txs
    ensures LeftOf(g, txs, EdgesFrom(g, done)) == {} <==> Up(g, txs) - txs <= done
  {
    if LeftOf(g, txs, EdgesFrom(g, done)) == {} {
      forall c, p | c in txs && p in g.parents[c] && p !in txs
        ensures p in done
      {
        assert Dep(p, c) !in LeftOf(g, txs, EdgesFrom(g, done));
      }
    }
  }

  /** Counting the parents outside of `txs` of one more of its transactions. */
  lemma LeftFromMore(g: Cluster, some: set<nat>, txs: set<nat>, c: nat)
    requires ValidCluster(g) && some <= g.txs && c in g.txs && c !in some
    ensures |LeftFrom(g, some + {c}, txs, {})| == |LeftFrom(g, some, txs, {})| + |g.parents[c] - txs|
  {
    var added := set p | p in g.parents[c] - txs :: Dep(p, c);
    assert LeftFrom(g, some + {c}, txs, {}) == LeftFrom(g, some, txs, {}) + added;
    SameCount(g.parents[c] - txs, c);
  }

  lemma {:induction false} SameCount(ps: set<nat>, c: nat)
    ensures |set p | p in ps :: Dep(p, c)| == |ps|
    decreases |ps|
  {
    var ds := set p | p in ps :: Dep(p, c);
    if ps != {} {
      var q :| q in ps;
      SameCount(ps - {q}, c);
      assert ds == (set p | p in ps - {q} :: Dep(p, c)) + {Dep(q, c)};
    }
  }

  /** Before anything is out. */
  lemma EmittingStart(g: Cluster, s: State, n: Counts)
    requires Shaped(g, s) && SetsSummed(g, s) && |n.txDeps| == |g.fees| && |n.chunkDeps| == |s.setTx|
    requires forall x :: x in g.txs ==> n.txDeps[x] == |g.parents[x]|
    requires forall k :: k in s.chunkIdxs ==> n.chunkDeps[k] == |LeftOf(g, s.setTx[k], {})|
    requires n.readyTx == {} && n.readyChunks == set k | k in s.chunkIdxs && n.chunkDeps[k] == 0
    ensures EdgesFrom(g, {}) == {} && Emitting(g, s, {}, {}, {}, {}, n)
  {
    forall x | x in g.txs
      ensures Left(g, x, {}) == g.parents[x]
    {
    }
  }

  /** When a chunk is taken from those that are ready. */
  lemma EmittingTake(g: Cluster, s: State, gone: set<Dep>, done: set<nat>, out: set<nat>, n: Counts, k: nat)
    requires Shaped(g, s) && SetsSummed(g, s) && Emitting(g, s, gone, done, out, {}, n) && k in n.readyChunks
    ensures k in s.chunkIdxs && k !in out
    ensures Emitting(g, s, gone, done, out + {k}, {}, n.(readyChunks := n.readyChunks - {k}))
  {
  }

  /** When the transactions of that chunk begin, and end. */
  lemma EmittingOpen(g: Cluster, s: State, gone: set<Dep>, done: set<nat>, out: set<nat>, n: Counts, txs: set<nat>,
                     ready: set<nat>)
    requires Shaped(g, s) && SetsSummed(g, s) && Emitting(g, s, gone, done, out, {}, n) && txs <= g.txs && txs !! done
    requires ready == set x | x in txs && n.txDeps[x] == 0
    ensures Emitting(g, s, gone, done, out, txs, n.(readyTx := ready))
  {
  }

  lemma EmittingClose(g: Cluster, s: State, gone: set<Dep>, done: set<nat>, out: set<nat>, n: Counts, txs: set<nat>)
    requires Shaped(g, s) && SetsSummed(g, s) && Emitting(g, s, gone, done, out, txs, n) && n.readyTx == {}
    ensures Emitting(g, s, gone, done, out, {}, n)
  {
  }

  /** When a transaction is taken from those that are ready. */
  lemma EmittingTakeTx(g: Cluster, s: State, done: set<nat>, out: set<nat>, n: Counts, txs: set<nat>, x: nat)
    requires Shaped(g, s) && SetsSummed(g, s) && done <= g.txs
    requires Emitting(g, s, EdgesFrom(g, done), done, out, txs, n) && x in n.readyTx
    ensures x in txs && x !in done && x in g.txs && g.parents[x] <= done
    ensures Emitting(g, s, EdgesFrom(g, done), done + {x}, out, txs, n.(readyTx := n.readyTx - {x}))
  {
    NothingLeft(g, done, x);
  }

  /** Whatever waits for nothing is ready. */
  lemma EmittingReady(g: Cluster, s: State, done: set<nat>, out: set<nat>, n: Counts, txs: set<nat>, x: nat)
    requires Shaped(g, s) && SetsSummed(g, s) && done <= g.txs
    requires Emitting(g, s, EdgesFrom(g, done), done, out, txs, n) && x in txs && x !in done && g.parents[x] <= done
    ensures x in n.readyTx
  {
    NothingLeft(g, done, x);
  }
}
