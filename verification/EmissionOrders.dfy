/** The order in which the chunks, and the transactions of each, take turns; and
    that there is only one, for given chunks. */
module EmissionOrders {
  import opened Clusters
  import opened Emissions
  import opened FeeRates
  import opened Forests
  import opened Orders
  import opened Sequences
  import D = Diagrams

  ghost function TxEntry(g: Cluster, key: nat -> int, x: nat): Entry
    requires ValidCluster(g) && x in g.txs
  {
    Entry(FeeFrac(g.fees[x], g.sizes[x]), key(x), x)
  }

  /** Of the transactions of `txs` that wait for none but those of `done` and of
      `out`, `x` comes before all others. */
  ghost predicate TxFirst(g: Cluster, key: nat -> int, done: set<nat>, txs: set<nat>, out: set<nat>, x: nat)
    requires ValidCluster(g) && txs <= g.txs && x in txs
  {
    forall y :: y in txs && y !in out && y != x && g.parents[y] <= done + out ==>
      Before(TxEntry(g, key, x), TxEntry(g, key, y))
  }

  ghost predicate TxsInTurn(g: Cluster, key: nat -> int, done: set<nat>, txs: set<nat>, seg: seq<nat>)
    requires ValidCluster(g) && txs <= g.txs
  {
    forall p :: 0 <= p < |seg| ==> seg[p] in txs && TxFirst(g, key, done, txs, Elements(seg[..p]), seg[p])
  }

  lemma TxsInTurnMore(g: Cluster, key: nat -> int, done: set<nat>, txs: set<nat>, seg: seq<nat>, x: nat)
    requires ValidCluster(g) && txs <= g.txs && TxsInTurn(g, key, done, txs, seg) && x in txs
    requires TxFirst(g, key, done, txs, Elements(seg), x)
    ensures TxsInTurn(g, key, done, txs, seg + [x])
  {
    var more := seg + [x];
    forall p | 0 <= p < |more|
      ensures more[p] in txs && TxFirst(g, key, done, txs, Elements(more[..p]), more[p])
    {
      if p < |seg| {
        assert more[p] == seg[p] && more[..p] == seg[..p];
      } else {
        assert more[..p] == seg;
      }
    }
  }

  /** The feerate and the size of some transactions, and the highest of their
      keys. */
  ghost function SetEntry(g: Cluster, key: nat -> int, S: set<nat>): Entry
    requires ValidCluster(g) && S <= g.txs && S != {}
  {
    Entry(Rate(g, S), HighestKey(key, S), 0)
  }

  /** By feerate, size and key, `a` need not come after `b`. */
  ghost predicate NoLater(a: Entry, b: Entry) {
    || Cross(a.rate, b.rate) > 0
    || (Cross(a.rate, b.rate) == 0
        && (a.rate.size < b.rate.size || (a.rate.size == b.rate.size && a.key <= b.key)))
  }

  /** The transactions of `S` wait for none outside but those of `done`. */
  ghost predicate Free(g: Cluster, done: set<nat>, S: set<nat>)
    requires ValidCluster(g) && S <= g.txs
  {
    Up(g, S) - S <= done
  }

  ghost predicate IsSegment(g: Cluster, seg: seq<nat>)
    requires ValidCluster(g)
  {
    seg != [] && Elements(seg) <= g.txs && Elements(seg) != {}
  }

  /** Whenever a chunk comes, no later chunk that need not wait for it, or for one
      in between, should have come before; and so for the transactions of each. */
  ghost predicate InTurn(g: Cluster, key: nat -> int, segs: seq<seq<nat>>)
    requires ValidCluster(g)
  {
    && (forall p :: 0 <= p < |segs| ==>
          && IsSegment(g, segs[p])
          && TxsInTurn(g, key, Elements(D.Flatten(segs[..p])), Elements(segs[p]), segs[p]))
    && forall p, q :: 0 <= p < q < |segs| ==> SegmentFirst(g, key, segs, p, q)
  }

  ghost predicate SegmentFirst(g: Cluster, key: nat -> int, segs: seq<seq<nat>>, p: nat, q: nat)
    requires ValidCluster(g) && p < |segs| && q < |segs| && IsSegment(g, segs[p]) && IsSegment(g, segs[q])
  {
    Free(g, Elements(D.Flatten(segs[..p])), Elements(segs[q])) ==>
      NoLater(SetEntry(g, key, Elements(segs[p])), SetEntry(g, key, Elements(segs[q])))
  }

  // --- chunks that are still to come ---

  /** Of the chunks that are not out, and wait for none but `done`, `k` need not
      come after any. */
  ghost predicate ChunkFirst(g: Cluster, t: Forest, key: nat -> int, out: set<nat>, done: set<nat>, k: nat)
    requires Chunked(g, t) && k in t
  {
    forall u {:trigger t[u]} :: u in t && u !in out && u != k && Free(g, done, t[u].txs) ==>
      NoLater(SetEntry(g, key, t[k].txs), SetEntry(g, key, t[u].txs))
  }

  ghost predicate ChunksInTurn(g: Cluster, t: Forest, key: nat -> int, chunks: seq<nat>, segs: seq<seq<nat>>)
    requires Chunked(g, t) && ChunkByChunk(t, chunks, segs)
  {
    forall p :: 0 <= p < |chunks| ==> ChunkInTurn(g, t, key, chunks[..p], segs[..p], chunks[p], segs[p])
  }

  /** After `chunks`, the chunk `k` comes in turn, and its transactions do. */
  ghost predicate ChunkInTurn(g: Cluster, t: Forest, key: nat -> int, chunks: seq<nat>, segs: seq<seq<nat>>, k: nat,
                              seg: seq<nat>)
    requires Chunked(g, t) && k in t
  {
    && ChunkFirst(g, t, key, Elements(chunks), Elements(D.Flatten(segs)), k)
    && TxsInTurn(g, key, Elements(D.Flatten(segs)), t[k].txs, seg)
  }

  lemma ChunksInTurnMore(g: Cluster, t: Forest, key: nat -> int, chunks: seq<nat>, segs: seq<seq<nat>>, k: nat,
                         seg: seq<nat>)
    requires Chunked(g, t) && ChunkByChunk(t, chunks, segs) && ChunksInTurn(g, t, key, chunks, segs)
    requires ChunkByChunk(t, chunks + [k], segs + [seg])
    requires k in t && ChunkInTurn(g, t, key, chunks, segs, k, seg)
    ensures ChunksInTurn(g, t, key, chunks + [k], segs + [seg])
  {
    var more, moreSegs := chunks + [k], segs + [seg];
    forall p | 0 <= p < |more|
      ensures ChunkInTurn(g, t, key, more[..p], moreSegs[..p], more[p], moreSegs[p])
    {
      BeforeLast(chunks, k, p);
      BeforeLast(segs, seg, p);
      if p < |chunks| {
        assert ChunkInTurn(g, t, key, chunks[..p], segs[..p], chunks[p], segs[p]);
      }
    }
  }

  lemma BeforeLast<T>(s: seq<T>, x: T, p: nat)
    requires p <= |s|
    ensures (s + [x])[..p] == s[..p] && (s + [x])[p] == if p < |s| then s[p] else x
    ensures s[..|s|] == s
  {
  }

  lemma NotEmpty(s: seq<nat>)
    ensures Elements(s) != {} ==> s != []
  {
  }

  lemma ChunksTakeTurns(g: Cluster, t: Forest, key: nat -> int, chunks: seq<nat>, segs: seq<seq<nat>>)
    requires Chunked(g, t) && ChunkByChunk(t, chunks, segs) && ChunksInTurn(g, t, key, chunks, segs)
    ensures InTurn(g, key, segs)
  {
    forall p | 0 <= p < |segs|
      ensures IsSegment(g, segs[p])
      ensures TxsInTurn(g, key, Elements(D.Flatten(segs[..p])), Elements(segs[p]), segs[p])
    {
      assert chunks[p] in t && Elements(segs[p]) == t[chunks[p]].txs;
      assert ChunkInTurn(g, t, key, chunks[..p], segs[..p], chunks[p], segs[p]);
      NotEmpty(segs[p]);
    }
    forall p, q | 0 <= p < q < |segs|
      ensures SegmentFirst(g, key, segs, p, q)
    {
      assert chunks[q] in t && Elements(segs[q]) == t[chunks[q]].txs;
      assert chunks[p] in t && Elements(segs[p]) == t[chunks[p]].txs;
      assert chunks[q] !in Elements(chunks[..p]);
      assert ChunkInTurn(g, t, key, chunks[..p], segs[..p], chunks[p], segs[p]);
    }
  }

  // --- there is one order ---

  ghost predicate Injective(key: nat -> int, txs: set<nat>) {
    forall x, y :: x in txs && y in txs && key(x) == key(y) ==> x == y
  }

  lemma NotBothBefore(a: Entry, b: Entry)
    requires Before(a, b)
    ensures !Before(b, a)
  {
    CrossFlip(a.rate, b.rate);
  }

  ghost predicate ReadyInTurn(g: Cluster, done: set<nat>, seg: seq<nat>)
    requires ValidCluster(g) && Elements(seg) <= g.txs
  {
    Distinct(seg) && forall p :: 0 <= p < |seg| ==> seg[p] in g.txs && g.parents[seg[p]] <= done + Elements(seg[..p])
  }

  lemma OneFirst(g: Cluster, key: nat -> int, done: set<nat>, txs: set<nat>, out: set<nat>, x: nat, y: nat)
    requires ValidCluster(g) && txs <= g.txs && x in txs && y in txs && x !in out && y !in out
    requires g.parents[x] <= done + out && g.parents[y] <= done + out
    requires TxFirst(g, key, done, txs, out, x) && TxFirst(g, key, done, txs, out, y)
    ensures x == y
  {
    if x != y {
      NotBothBefore(TxEntry(g, key, x), TxEntry(g, key, y));
    }
  }

  /** The transactions of a chunk have one order. */
  lemma {:induction false} SameTurns(g: Cluster, key: nat -> int, done: set<nat>, txs: set<nat>, a: seq<nat>,
                                     b: seq<nat>, n: nat)
    requires ValidCluster(g) && txs <= g.txs && Elements(a) == txs == Elements(b)
    requires ReadyInTurn(g, done, a) && ReadyInTurn(g, done, b)
    requires TxsInTurn(g, key, done, txs, a) && TxsInTurn(g, key, done, txs, b) && n <= |a| && n <= |b|
    ensures a[..n] == b[..n]
  {
    if n > 0 {
      SameTurns(g, key, done, txs, a, b, n - 1);
      SameAt(g, key, done, txs, a, b, n - 1);
      OneMoreSame(a, b, n);
    }
  }

  lemma SameAt(g: Cluster, key: nat -> int, done: set<nat>, txs: set<nat>, a: seq<nat>, b: seq<nat>, m: nat)
    requires ValidCluster(g) && txs <= g.txs && Elements(a) == txs == Elements(b)
    requires ReadyInTurn(g, done, a) && ReadyInTurn(g, done, b)
    requires TxsInTurn(g, key, done, txs, a) && TxsInTurn(g, key, done, txs, b)
    requires m < |a| && m < |b| && a[..m] == b[..m]
    ensures a[m] == b[m]
  {
    NotYet(a, m);
    NotYet(b, m);
    OneFirst(g, key, done, txs, Elements(a[..m]), a[m], b[m]);
  }

  lemma NotYet(s: seq<nat>, m: nat)
    requires Distinct(s) && m < |s|
    ensures s[m] !in Elements(s[..m]) && s[m] in Elements(s)
  {
    forall i | 0 <= i < |s[..m]|
      ensures s[..m][i] != s[m]
    {
      assert s[..m][i] == s[i];
    }
  }

  lemma SameTurn(g: Cluster, key: nat -> int, done: set<nat>, txs: set<nat>, a: seq<nat>, b: seq<nat>)
    requires ValidCluster(g) && txs <= g.txs && Elements(a) == txs == Elements(b)
    requires ReadyInTurn(g, done, a) && ReadyInTurn(g, done, b)
    requires TxsInTurn(g, key, done, txs, a) && TxsInTurn(g, key, done, txs, b)
    ensures a == b
  {
    if |a| <= |b| {
      SameTurns(g, key, done, txs, a, b, |a|);
      NoLonger(b, a);
    } else {
      SameTurns(g, key, done, txs, a, b, |b|);
      NoLonger(a, b);
    }
  }

  lemma NoLonger(a: seq<nat>, b: seq<nat>)
    requires Distinct(a) && Elements(a) == Elements(b) && |b| <= |a| && a[..|b|] == b[..|b|]
    ensures a == b
  {
    assert b[..|b|] == b;
    if |b| < |a| {
      NotYet(a, |b|);
    }
  }

  // --- segments of one order ---

  lemma SegmentReady(g: Cluster, pre: seq<nat>, seg: seq<nat>, post: seq<nat>)
    requires ValidCluster(g) && Distinct(pre + seg + post) && ParentsFirst(g, pre + seg + post)
    ensures Elements(seg) <= g.txs && ReadyInTurn(g, Elements(pre), seg) && Elements(pre) !! Elements(seg)
    ensures Free(g, Elements(pre), Elements(seg))
  {
    var order := pre + seg + post;
    forall p | 0 <= p < |seg|
      ensures seg[p] in g.txs && g.parents[seg[p]] <= Elements(pre) + Elements(seg[..p]) && seg[p] !in Elements(pre)
    {
      assert order[|pre| + p] == seg[p] && order[..|pre| + p] == pre + seg[..p];
      NotYet(order, |pre| + p);
      assert Elements(pre + seg[..p]) == Elements(pre) + Elements(seg[..p]);
    }
    forall p, q | 0 <= p < q < |seg|
      ensures seg[p] != seg[q]
    {
      assert order[|pre| + p] == seg[p] && order[|pre| + q] == seg[q];
    }
    forall x | x in Up(g, Elements(seg)) - Elements(seg)
      ensures x in Elements(pre)
    {
      var c :| c in Elements(seg) && x in g.parents[c];
      var p :| 0 <= p < |seg| && seg[p] == c;
      assert Elements(seg[..p]) <= Elements(seg);
    }
  }

  lemma SegmentAt(g: Cluster, segs: seq<seq<nat>>, i: nat)
    requires ValidCluster(g) && IsOrder(g, D.Flatten(segs)) && i < |segs|
    ensures Elements(segs[i]) <= g.txs && ReadyInTurn(g, Elements(D.Flatten(segs[..i])), segs[i])
    ensures Elements(D.Flatten(segs[..i])) !! Elements(segs[i])
    ensures Free(g, Elements(D.Flatten(segs[..i])), Elements(segs[i]))
  {
    D.FlattenAt(segs, i);
    SegmentReady(g, D.Flatten(segs[..i]), segs[i], D.Flatten(segs[i + 1..]));
  }

  lemma SegmentsApart(g: Cluster, segs: seq<seq<nat>>, i: nat, j: nat)
    requires ValidCluster(g) && IsOrder(g, D.Flatten(segs)) && i < j < |segs|
    ensures Elements(segs[i]) !! Elements(segs[j])
  {
    SegmentAt(g, segs, j);
    InPrefix(segs, i, j);
  }

  lemma InPrefix(segs: seq<seq<nat>>, i: nat, j: nat)
    requires i < j <= |segs|
    ensures Elements(segs[i]) <= Elements(D.Flatten(segs[..j]))
  {
    var pre, post := D.Flatten(segs[..j][..i]), D.Flatten(segs[..j][i + 1..]);
    D.FlattenAt(segs[..j], i);
    assert segs[..j][i] == segs[i];
    InMiddle(pre, segs[i], post);
  }

  lemma InMiddle(pre: seq<nat>, seg: seq<nat>, post: seq<nat>)
    ensures Elements(seg) <= Elements(pre + seg + post)
  {
  }

  /** Every segment of `a` has the transactions of one of `b`. */
  ghost predicate SameSets(a: seq<seq<nat>>, b: seq<seq<nat>>) {
    forall i :: 0 <= i < |a| ==> HasSet(b, Elements(a[i]))
  }

  ghost predicate HasSet(b: seq<seq<nat>>, S: set<nat>) {
    exists j :: 0 <= j < |b| && Elements(b[j]) == S
  }

  /** The place in `b` of a segment of `a`, where both are the same before `n`. */
  lemma LaterPlace(g: Cluster, a: seq<seq<nat>>, b: seq<seq<nat>>, n: nat) returns (j: nat)
    requires ValidCluster(g) && IsOrder(g, D.Flatten(a)) && SameSets(a, b)
    requires n < |a| && n <= |b| && a[..n] == b[..n] && Elements(a[n]) != {}
    ensures n <= j < |b| && Elements(b[j]) == Elements(a[n])
  {
    assert HasSet(b, Elements(a[n]));
    j :| 0 <= j < |b| && Elements(b[j]) == Elements(a[n]);
    if j < n {
      assert a[..n][j] == b[..n][j];
      SegmentsApart(g, a, j, n);
      assert false;
    }
  }

  lemma SameKeys(key: nat -> int, txs: set<nat>, A: set<nat>, B: set<nat>)
    requires Injective(key, txs) && A <= txs && B <= txs && A != {} && B != {} && A !! B
    ensures HighestKey(key, A) != HighestKey(key, B)
  {
    var x :| x in A && key(x) == HighestKey(key, A);
    var y :| y in B && key(y) == HighestKey(key, B);
  }

  lemma OneIsFirst(g: Cluster, key: nat -> int, A: set<nat>, B: set<nat>)
    requires ValidCluster(g) && A <= g.txs && B <= g.txs && A != {} && B != {} && A !! B && Injective(key, g.txs)
    ensures !(NoLater(SetEntry(g, key, A), SetEntry(g, key, B)) && NoLater(SetEntry(g, key, B), SetEntry(g, key, A)))
  {
    SameKeys(key, g.txs, A, B);
    CrossFlip(Rate(g, A), Rate(g, B));
  }

  /** Two orders of the same chunks, each in turn. */
  ghost predicate TwoTurns(g: Cluster, key: nat -> int, a: seq<seq<nat>>, b: seq<seq<nat>>)
    requires ValidCluster(g)
  {
    && IsOrder(g, D.Flatten(a)) && IsOrder(g, D.Flatten(b)) && Injective(key, g.txs)
    && InTurn(g, key, a) && InTurn(g, key, b) && SameSets(a, b) && SameSets(b, a)
  }

  /** The chunk at `n` need not come after another that `b` has there. */
  lemma NextComesFirst(g: Cluster, key: nat -> int, a: seq<seq<nat>>, b: seq<seq<nat>>, n: nat)
    requires ValidCluster(g) && TwoTurns(g, key, a, b) && n < |a| && n < |b| && a[..n] == b[..n]
    requires Elements(a[n]) != Elements(b[n])
    ensures IsSegment(g, a[n]) && IsSegment(g, b[n]) && Elements(a[n]) !! Elements(b[n])
    ensures NoLater(SetEntry(g, key, Elements(a[n])), SetEntry(g, key, Elements(b[n])))
  {
    assert IsSegment(g, b[n]);
    var k := LaterPlace(g, b, a, n);
    SegmentAt(g, b, n);
    SegmentsApart(g, a, n, k);
    assert SegmentFirst(g, key, a, n, k);
  }

  lemma SameNextSet(g: Cluster, key: nat -> int, a: seq<seq<nat>>, b: seq<seq<nat>>, n: nat)
    requires ValidCluster(g) && TwoTurns(g, key, a, b) && n < |a| && n < |b| && a[..n] == b[..n]
    ensures Elements(a[n]) == Elements(b[n])
  {
    if Elements(a[n]) != Elements(b[n]) {
      NextComesFirst(g, key, a, b, n);
      NextComesFirst(g, key, b, a, n);
      OneIsFirst(g, key, Elements(a[n]), Elements(b[n]));
    }
  }

  lemma SameNext(g: Cluster, key: nat -> int, a: seq<seq<nat>>, b: seq<seq<nat>>, n: nat)
    requires ValidCluster(g) && TwoTurns(g, key, a, b) && n < |a| && n < |b| && a[..n] == b[..n]
    ensures a[n] == b[n]
  {
    SameNextSet(g, key, a, b, n);
    SegmentAt(g, a, n);
    SegmentAt(g, b, n);
    SameTurn(g, key, Elements(D.Flatten(a[..n])), Elements(a[n]), a[n], b[n]);
  }

  lemma {:induction false} SameUpTo(g: Cluster, key: nat -> int, a: seq<seq<nat>>, b: seq<seq<nat>>, n: nat)
    requires ValidCluster(g) && TwoTurns(g, key, a, b) && n <= |a| && n <= |b|
    ensures a[..n] == b[..n]
    decreases n
  {
    if n > 0 {
      SameUpTo(g, key, a, b, n - 1);
      SameNext(g, key, a, b, n - 1);
      OneMoreSame(a, b, n);
    }
  }

  lemma OneMoreSame<T>(a: seq<T>, b: seq<T>, n: nat)
    requires 0 < n <= |a| && n <= |b| && a[..n - 1] == b[..n - 1] && a[n - 1] == b[n - 1]
    ensures a[..n] == b[..n]
  {
    assert a[..n] == a[..n - 1] + [a[n - 1]];
    assert b[..n] == b[..n - 1] + [b[n - 1]];
  }

  lemma NothingLonger(g: Cluster, key: nat -> int, a: seq<seq<nat>>, b: seq<seq<nat>>)
    requires ValidCluster(g) && TwoTurns(g, key, a, b) && |b| <= |a| && a[..|b|] == b[..|b|]
    ensures |a| <= |b|
  {
    if |b| < |a| {
      assert IsSegment(g, a[|b|]);
      var _ := LaterPlace(g, a, b, |b|);
    }
  }

  /** With distinct keys, the same chunks take turns in one order only. */
  lemma OneOrder(g: Cluster, key: nat -> int, a: seq<seq<nat>>, b: seq<seq<nat>>)
    requires ValidCluster(g) && TwoTurns(g, key, a, b)
    ensures a == b
  {
    if |a| <= |b| {
      SameUpTo(g, key, a, b, |a|);
      NothingLonger(g, key, b, a);
    } else {
      SameUpTo(g, key, a, b, |b|);
      NothingLonger(g, key, a, b);
    }
    assert a == a[..|a|] && b == b[..|b|];
  }
}
