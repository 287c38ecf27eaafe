/** Putting out the chunks of a spanning forest, and its diagram. */
module EmittedOrders {
  import opened ChunkOrders
  import opened Clusters
  import opened EmissionOrders
  import opened Emissions
  import opened FeeRates
  import opened ForestStates
  import opened Forests
  import opened Optimality
  import opened Orders
  import opened Sequences
  import D = Diagrams

  /** `order` is out, all of `chunks`, and `n` holds the counts of the rest. */
  ghost predicate EmittedState(g: Cluster, s: State, chunks: seq<nat>, order: seq<nat>, n: Counts) {
    && ValidState(g, s) && Elements(order) <= g.txs
    && Emitting(g, s, EdgesFrom(g, Elements(order)), Elements(order), Elements(chunks), {}, n)
  }

  lemma NothingEmitted(g: Cluster, t: Forest)
    requires Chunked(g, t)
    ensures Emitted(g, t, [], [], [])
  {
    assert Elements([]) == {};
    assert TxsOf(t, {}) == {};
  }

  /** The ready chunks are those that wait for nothing. */
  lemma ReadyListed(g: Cluster, s: State, chunks: seq<nat>, segs: seq<seq<nat>>, order: seq<nat>, n: Counts, k: nat)
    requires EmittedState(g, s, chunks, order, n) && k in s.chunkIdxs && k !in Elements(chunks)
    requires Emitted(g, TreesOf(g, s), chunks, segs, order)
    ensures Elements(chunks) <= TreesOf(g, s).Keys && k in TreesOf(g, s)
    ensures k in n.readyChunks <==> Ready(g, TreesOf(g, s), Elements(chunks), k)
  {
    TreeIn(g, s, k);
    NothingLeftOf(g, Elements(order), s.setTx[k]);
  }

  lemma ReadyChunk(g: Cluster, s: State, chunks: seq<nat>, segs: seq<seq<nat>>, order: seq<nat>, n: Counts, k: nat)
    requires EmittedState(g, s, chunks, order, n) && k in n.readyChunks
    requires Emitted(g, TreesOf(g, s), chunks, segs, order)
    ensures k in s.chunkIdxs && k !in Elements(chunks) && s.setTx[k] <= g.txs
    ensures s.setTx[k] !! Elements(order) && Up(g, s.setTx[k]) - s.setTx[k] <= Elements(order)
  {
    TreeIn(g, s, k);
    NothingLeftOf(g, Elements(order), s.setTx[k]);
    TxsOfApart(g, TreesOf(g, s), Elements(chunks), k);
  }

  lemma ReadyEntries(g: Cluster, s: State, chunks: seq<nat>, order: seq<nat>, n: Counts)
    requires EmittedState(g, s, chunks, order, n)
    ensures forall k :: k in n.readyChunks ==> k < |s.setTx| && s.setTx[k] != {} && s.setSize[k] > 0
  {
    forall k | k in n.readyChunks
      ensures s.setTx[k] != {} && s.setSize[k] > 0
    {
      TreeIn(g, s, k);
      SlotRates(g, s, k);
    }
  }

  lemma FirstIsListed(g: Cluster, s: State, chunks: seq<nat>, segs: seq<seq<nat>>, order: seq<nat>, n: Counts, k: nat)
    requires EmittedState(g, s, chunks, order, n) && Emitted(g, TreesOf(g, s), chunks, segs, order)
    requires Elements(chunks) <= TreesOf(g, s).Keys
    requires FirstIn(g, TreesOf(g, s), TreesOf(g, s).Keys - Elements(chunks), k)
    ensures k in n.readyChunks
  {
    var t := TreesOf(g, s);
    assert Ready(g, t, Elements(chunks), k) by {
      AllListed(g, s);
      FirstIsReady(g, t, Elements(chunks), k);
    }
    ReadyListed(g, s, chunks, segs, order, n, k);
  }

  /** The best of the ready chunks is beaten by none that is left. */
  lemma BestIsBest(g: Cluster, s: State, chunks: seq<nat>, segs: seq<seq<nat>>, order: seq<nat>, n: Counts, k: nat)
    requires EmittedState(g, s, chunks, order, n) && Emitted(g, TreesOf(g, s), chunks, segs, order)
    requires WeaklyTopological(g, TreesOf(g, s)) && AcyclicChunks(g, TreesOf(g, s)) && k in n.readyChunks
    requires forall i :: i in n.readyChunks ==> AtMost(SlotRate(s, i), SlotRate(s, k))
    ensures k in TreesOf(g, s) && k !in Elements(chunks)
    ensures forall u :: u in TreesOf(g, s) && u !in Elements(chunks) ==>
              AtMost(RateOf(g, TreesOf(g, s), u), RateOf(g, TreesOf(g, s), k))
  {
    var t, out := TreesOf(g, s), Elements(chunks);
    assert out <= t.Keys;
    SlotRates(g, s, k);
    forall i | i in t.Keys - out && FirstIn(g, t, t.Keys - out, i)
      ensures AtMost(RateOf(g, t, i), RateOf(g, t, k))
    {
      FirstIsListed(g, s, chunks, segs, order, n, i);
      SlotRates(g, s, i);
    }
    BestOfFirst(g, t, t.Keys - out, k);
  }

  /** Of those that are ready, the first is the first of all that wait for none but
      those that are out. */
  lemma TakenIsFirst(g: Cluster, s: State, key: nat -> int, done: set<nat>, out: set<nat>, n: Counts, txs: set<nat>,
                     x: nat)
    requires Shaped(g, s) && SetsSummed(g, s) && done <= g.txs && x in n.readyTx
    requires Emitting(g, s, EdgesFrom(g, done), done, out, txs, n)
    requires forall y :: y in n.readyTx ==> y in g.txs
    requires forall y :: y in n.readyTx && y != x ==> Before(TxEntry(g, key, x), TxEntry(g, key, y))
    ensures txs <= g.txs && x in txs && TxFirst(g, key, done, txs, done, x)
  {
    forall y | y in txs && y !in done && y != x && g.parents[y] <= done + done
      ensures Before(TxEntry(g, key, x), TxEntry(g, key, y))
    {
      EmittingReady(g, s, done, out, n, txs, y);
    }
  }

  lemma FirstAmong(g: Cluster, key: nat -> int, done: set<nat>, txs: set<nat>, out: set<nat>, x: nat)
    requires ValidCluster(g) && txs <= g.txs && x in txs && txs !! done
    requires TxFirst(g, key, done + out, txs, done + out, x)
    ensures TxFirst(g, key, done, txs, out, x)
  {
    assert done + out + (done + out) == done + out;
  }

  ghost predicate HasEntry(s: State, k: nat) {
    k < |s.setTx| && |s.setFee| == |s.setTx| && |s.setSize| == |s.setTx| && s.setTx[k] != {}
  }

  /** What the heap of chunks orders the chunk `k` by. */
  ghost function SlotEntry(s: State, key: nat -> int, k: nat): Entry
    requires HasEntry(s, k)
  {
    Entry(SlotRate(s, k), HighestKey(key, s.setTx[k]), 0)
  }

  lemma EntryOfSlot(g: Cluster, s: State, key: nat -> int, k: nat)
    requires ValidState(g, s) && k in s.chunkIdxs
    ensures HasEntry(s, k) && k in TreesOf(g, s) && Chunked(g, TreesOf(g, s))
    ensures SlotEntry(s, key, k) == SetEntry(g, key, TreesOf(g, s)[k].txs)
  {
    TreeIn(g, s, k);
    SlotRates(g, s, k);
  }

  /** Of the ready chunks, the first is the first of all that wait for none but
      those that are out. */
  lemma PickedIsFirst(g: Cluster, s: State, key: nat -> int, chunks: seq<nat>, segs: seq<seq<nat>>, order: seq<nat>,
                      n: Counts, k: nat)
    requires EmittedState(g, s, chunks, order, n) && Emitted(g, TreesOf(g, s), chunks, segs, order)
    requires k in n.readyChunks && k in s.chunkIdxs && HasEntry(s, k)
    requires forall i :: i in n.readyChunks && i != k ==>
               HasEntry(s, i) && NoLater(SlotEntry(s, key, k), SlotEntry(s, key, i))
    ensures k in TreesOf(g, s) && ChunkFirst(g, TreesOf(g, s), key, Elements(chunks), Elements(order), k)
  {
    var t := TreesOf(g, s);
    EntryOfSlot(g, s, key, k);
    forall u {:trigger t[u]} | u in t && u !in Elements(chunks) && u != k && Free(g, Elements(order), t[u].txs)
      ensures NoLater(SetEntry(g, key, t[k].txs), SetEntry(g, key, t[u].txs))
    {
      ReadyListed(g, s, chunks, segs, order, n, u);
      EntryOfSlot(g, s, key, u);
    }
  }

  lemma EmittedElements(chunks: seq<nat>, k: nat, order: seq<nat>, seg: seq<nat>)
    ensures Elements(chunks + [k]) == Elements(chunks) + {k}
    ensures Elements(order + seg) == Elements(order) + Elements(seg)
  {
  }

  lemma MoreOut(all: set<nat>, chunks: seq<nat>, k: nat)
    requires k in all && k !in Elements(chunks)
    ensures |all - Elements(chunks + [k])| < |all - Elements(chunks)|
  {
    assert all - Elements(chunks + [k]) == all - Elements(chunks) - {k};
  }

  /** Once nothing is ready, everything is out. */
  lemma AllEmitted(g: Cluster, s: State, chunks: seq<nat>, segs: seq<seq<nat>>, order: seq<nat>, n: Counts)
    requires EmittedState(g, s, chunks, order, n) && Emitted(g, TreesOf(g, s), chunks, segs, order)
    requires WeaklyTopological(g, TreesOf(g, s)) && AcyclicChunks(g, TreesOf(g, s)) && n.readyChunks == {}
    ensures Elements(chunks) == TreesOf(g, s).Keys && IsOrder(g, order)
  {
    var t, out := TreesOf(g, s), Elements(chunks);
    assert out <= t.Keys;
    if out != t.Keys {
      var k := HighestIsFirst(g, t, t.Keys - out);
      FirstIsListed(g, s, chunks, segs, order, n, k);
    }
    AllListed(g, s);
  }

  /** Every transaction is in a chunk. */
  lemma AllListed(g: Cluster, s: State)
    requires ValidState(g, s)
    ensures TxsOf(TreesOf(g, s), TreesOf(g, s).Keys) == g.txs
  {
    forall x | x in g.txs
      ensures x in TxsOf(TreesOf(g, s), TreesOf(g, s).Keys)
    {
      TreeIn(g, s, s.chunkIdx[x]);
    }
    forall x | x in TxsOf(TreesOf(g, s), TreesOf(g, s).Keys)
      ensures x in g.txs
    {
      var k :| k in s.chunkIdxs && x in s.setTx[k];
    }
  }

  // --- the diagram ---

  /** Highest feerate first, then smallest size first. */
  ghost predicate BestFirst(rs: seq<FeeFrac>) {
    forall i, j :: 0 <= i < j < |rs| ==> InOrder(rs[i], rs[j])
  }

  predicate InOrder(a: FeeFrac, b: FeeFrac) {
    Cross(a, b) > 0 || (Cross(a, b) == 0 && a.size <= b.size)
  }

  lemma InOrderChain(a: FeeFrac, b: FeeFrac, c: FeeFrac)
    requires a.size > 0 && b.size > 0 && c.size > 0 && InOrder(a, b) && InOrder(b, c)
    ensures InOrder(a, c)
  {
    CrossTrans(a, b, c);
  }

  lemma InOrderTotal(a: FeeFrac, b: FeeFrac)
    ensures InOrder(a, b) || InOrder(b, a)
  {
    CrossFlip(a, b);
  }

  function InsertedAt<T>(rs: seq<T>, r: T, i: nat): seq<T>
    requires i <= |rs|
  {
    rs[..i] + [r] + rs[i..]
  }

  lemma NoWorseBefore(rs: seq<FeeFrac>, r: FeeFrac, i: nat)
    requires D.Positive(rs) && BestFirst(rs) && r.size > 0 && i <= |rs| && (i > 0 ==> InOrder(rs[i - 1], r))
    ensures forall j :: 0 <= j < i ==> InOrder(rs[j], r)
  {
    forall j | 0 <= j < i - 1
      ensures InOrder(rs[j], r)
    {
      InOrderChain(rs[j], rs[i - 1], r);
    }
  }

  lemma InsertedKeeps(rs: seq<FeeFrac>, r: FeeFrac, i: nat)
    requires D.Positive(rs) && BestFirst(rs) && r.size > 0 && i <= |rs|
    requires forall j :: 0 <= j < i ==> InOrder(rs[j], r)
    requires forall j :: i <= j < |rs| ==> InOrder(r, rs[j])
    ensures D.Positive(InsertedAt(rs, r, i)) && BestFirst(InsertedAt(rs, r, i))
    ensures multiset(InsertedAt(rs, r, i)) == multiset(rs) + multiset{r}
  {
    assert rs == rs[..i] + rs[i..];
    var more := InsertedAt(rs, r, i);
    forall j, k | 0 <= j < k < |more|
      ensures InOrder(more[j], more[k])
    {
      var j', k' := if j < i then j else j - 1, if k < i then k else k - 1;
      assert j == i || more[j] == rs[j'];
      assert k == i || more[k] == rs[k'];
    }
  }

  /** `rs` with `r` put after everything that is no worse. */
  method Inserted(rs: seq<FeeFrac>, r: FeeFrac) returns (rs': seq<FeeFrac>)
    requires D.Positive(rs) && BestFirst(rs) && r.size > 0
    ensures D.Positive(rs') && BestFirst(rs') && multiset(rs') == multiset(rs) + multiset{r}
  {
    var i := |rs|;
    while i > 0 && !InOrder(rs[i - 1], r)
      invariant 0 <= i <= |rs|
      invariant forall j :: i <= j < |rs| ==> InOrder(r, rs[j])
    {
      i := i - 1;
      InOrderTotal(rs[i], r);
    }
    NoWorseBefore(rs, r, i);
    InsertedKeeps(rs, r, i);
    rs' := InsertedAt(rs, r, i);
  }

  /** A sorted copy, by insertion. */
  method SortedBestFirst(rates: seq<FeeFrac>) returns (rs: seq<FeeFrac>)
    requires D.Positive(rates)
    ensures D.Positive(rs) && BestFirst(rs) && multiset(rs) == multiset(rates)
  {
    rs := [];
    for i := 0 to |rates|
      invariant D.Positive(rs) && BestFirst(rs) && multiset(rs) == multiset(rates[..i])
    {
      assert rates[..i + 1] == rates[..i] + [rates[i]];
      rs := Inserted(rs, rates[i]);
    }
    assert rates[..|rates|] == rates;
  }

  ghost predicate ListsChunks(g: Cluster, t: Forest, chunks: seq<nat>, S: set<nat>, rates: seq<FeeFrac>)
    requires Chunked(g, t)
  {
    && (forall i :: 0 <= i < |chunks| ==> chunks[i] in t)
    && Distinct(chunks) && Elements(chunks) == S && rates == ChunkRates(g, t, chunks)
  }

  lemma ListOneMore(g: Cluster, t: Forest, chunks: seq<nat>, S: set<nat>, rates: seq<FeeFrac>, k: nat)
    requires Chunked(g, t) && ListsChunks(g, t, chunks, S, rates) && k in t && k !in S
    ensures ListsChunks(g, t, chunks + [k], S + {k}, rates + [RateOf(g, t, k)])
  {
    var more := chunks + [k];
    forall i | 0 <= i < |chunks|
      ensures more[i] == chunks[i] && more[i] != k
    {
      assert chunks[i] in Elements(chunks);
    }
    assert Elements(more) == S + {k};
    assert ChunkRates(g, t, more) == rates + [RateOf(g, t, k)];
  }

  lemma {:induction false} GainOfPermuted(a: seq<FeeFrac>, b: seq<FeeFrac>, slope: FeeFrac)
    requires multiset(a) == multiset(b)
    ensures D.Gain(a, slope) == D.Gain(b, slope)
    decreases |a|
  {
    if a == [] {
      assert |multiset(a)| == |a| && |multiset(b)| == |b|;
    } else {
      var i := SameElsewhere(a, b);
      GainOfPermuted(a[1..], D.RemoveAt(b, i), slope);
      D.GainRemoveAt(b, i, slope);
    }
  }

  lemma SameElsewhere(a: seq<FeeFrac>, b: seq<FeeFrac>) returns (i: nat)
    requires multiset(a) == multiset(b) && a != []
    ensures i < |b| && b[i] == a[0] && multiset(a[1..]) == multiset(D.RemoveAt(b, i))
  {
    assert a == [a[0]] + a[1..];
    assert a[0] in multiset(b);
    i :| 0 <= i < |b| && b[i] == a[0];
    Elsewhere(b, i);
    Elsewhere(a, 0);
    assert D.RemoveAt(a, 0) == a[1..];
  }

  lemma Elsewhere(b: seq<FeeFrac>, i: nat)
    requires i < |b|
    ensures multiset(D.RemoveAt(b, i)) == multiset(b) - multiset{b[i]}
  {
    assert b == b[..i] + [b[i]] + b[i + 1..];
  }

  lemma DiagramOfChunks(g: Cluster, t: Forest, chunks: seq<nat>, diagram: seq<FeeFrac>)
    requires Chunked(g, t) && Distinct(chunks) && Elements(chunks) == t.Keys
    requires forall i :: 0 <= i < |chunks| ==> chunks[i] in t
    requires multiset(diagram) == multiset(ChunkRates(g, t, chunks)) && BestFirst(diagram) && D.Positive(diagram)
    ensures forall slope: FeeFrac :: slope.size > 0 ==>
              D.Gain(diagram, slope) == D.Peak(diagram, slope) == GainOver(g, t, t.Keys, slope)
  {
    forall slope: FeeFrac | slope.size > 0
      ensures D.Gain(diagram, slope) == D.Peak(diagram, slope) == GainOver(g, t, t.Keys, slope)
    {
      D.SortedPeak(diagram, slope);
      GainOfPermuted(diagram, ChunkRates(g, t, chunks), slope);
      GainOfChunks(g, t, chunks, slope);
    }
  }
}
