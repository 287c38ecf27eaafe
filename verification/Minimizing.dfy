/** Splitting the chunks of an optimal forest into parts of equal feerate. */
module Minimizing {
  import opened Clusters
  import opened FeeRates
  import opened Forests
  import opened Improving
  import opened Minimality
  import opened Optimality
  import opened SetSums
  import opened Trees

  /** What every step of the minimization keeps: no top set beats its chunk, no
      chunk depends on one with a lower feerate, and there is no cycle. */
  ghost predicate Steady(g: Cluster, t: Forest) {
    ValidForest(g, t) && Chunked(g, t) && Optimal(g, t) && WeaklyTopological(g, t) && AcyclicChunks(g, t)
  }

  ghost predicate SameGain(g: Cluster, t: Forest, t': Forest)
    requires Chunked(g, t) && Chunked(g, t')
  {
    forall slope: FeeFrac :: slope.size > 0 ==> GainOver(g, t, t.Keys, slope) == GainOver(g, t', t'.Keys, slope)
  }

  /** Weighed by the feerate of the chunk that was cut, no top set of a part
      beats the part: so neither does it by the part's own. */
  lemma PartUnbeaten(g: Cluster, t: Forest, k: nat, c: FeeFrac)
    requires ValidForest(g, t) && k in t && c.size > 0 && Cross(RateOf(g, t, k), c) == 0
    requires NoneBeats(t[k], Weights(g, c))
    ensures Unbeaten(g, t, k)
  {
    forall d | d in t[k].tops
      ensures t[k].tops[d] <= g.txs && AtMost(Rate(g, t[k].tops[d]), RateOf(g, t, k))
    {
      var S := t[k].tops[d];
      assert ValidTree(t[k]) && IsCut(t[k], d, S);
      assert S <= t[k].txs <= g.txs && d.parent in S;
      WeightsOf(g, S, c);
      RatePositive(g, S);
      SameLevel(c, RateOf(g, t, k), Rate(g, S));
    }
    UnbeatenByTops(g, t, k);
  }

  /** `t1` is `t0` split at a dependency whose top set has the feerate of its
      chunk `k`. */
  ghost predicate EvenlyParted(g: Cluster, t0: Forest, k: nat, d: Dep, a: nat, t1: Forest) {
    && ValidForest(g, t0) && Chunked(g, t0) && Optimal(g, t0) && ValidForest(g, t1) && Parted(t0, k, d, a, t1)
    && Chunked(g, t1) && Cross(RateOf(g, t1, a), RateOf(g, t0, k)) == 0
  }

  lemma PartsWeigh(g: Cluster, t0: Forest, k: nat, d: Dep, a: nat, t1: Forest)
    requires EvenlyParted(g, t0, k, d, a, t1)
    ensures var w := Weights(g, RateOf(g, t0, k));
            && NoneBeats(t1[a], w) && NoneBeats(t1[k], w)
            && Within(t1[a].txs, |w|) && Within(t1[k].txs, |w|)
            && Sum(w, t1[a].txs) == 0 && Sum(w, t1[k].txs) == 0
  {
    var c := RateOf(g, t0, k);
    assert Unbeaten(g, t0, k);
    WholeWeighsNothing(g, t0, k);
    PartedIsCut(g, t0, k, d, a, t1);
    WeightsOf(g, t1[a].txs, c);
    assert ValidTree(t0[k]);
    SplitKeepsNoneBeats(t0[k], Weights(g, c), d);
  }

  /** Of a top set that is not below its chunk, in an optimal forest. */
  lemma NotBelowIsEven(g: Cluster, t0: Forest, k: nat, d: Dep, a: nat, t1: Forest)
    requires ValidForest(g, t0) && Chunked(g, t0) && Optimal(g, t0) && ValidForest(g, t1) && Parted(t0, k, d, a, t1)
    requires t0[k].tops[d] <= g.txs && !Below(Rate(g, t0[k].tops[d]), RateOf(g, t0, k))
    ensures EvenlyParted(g, t0, k, d, a, t1)
  {
    assert Unbeaten(g, t0, k);
    UnbeatenTop(g, t0, k, d);
    ValidIsChunked(g, t1);
    PartedIsCut(g, t0, k, d, a, t1);
  }

  lemma OthersUnbeaten(g: Cluster, t0: Forest, t1: Forest, i: nat)
    requires ValidForest(g, t0) && Optimal(g, t0) && ValidForest(g, t1) && i in t0 && i in t1 && t1[i] == t0[i]
    ensures Unbeaten(g, t1, i)
  {
    assert Unbeaten(g, t0, i);
    SameUnbeaten(g, t0, t1, i);
  }

  lemma OptimalBesides(g: Cluster, t0: Forest, t1: Forest, changed: set<nat>)
    requires ValidForest(g, t0) && Optimal(g, t0) && ValidForest(g, t1)
    requires forall i :: i in t1 && i !in changed ==> i in t0 && t1[i] == t0[i]
    requires forall i :: i in t1 && i in changed ==> Unbeaten(g, t1, i)
    ensures Optimal(g, t1)
  {
    forall i | i in t1 && i !in changed
      ensures Unbeaten(g, t1, i)
    {
      OthersUnbeaten(g, t0, t1, i);
    }
  }

  lemma PartsUnbeaten(g: Cluster, t0: Forest, k: nat, d: Dep, a: nat, t1: Forest)
    requires EvenlyParted(g, t0, k, d, a, t1)
    ensures Unbeaten(g, t1, a) && Unbeaten(g, t1, k)
  {
    var c := RateOf(g, t0, k);
    PartsWeigh(g, t0, k, d, a, t1);
    WeightsOf(g, t1[k].txs, c);
    PartUnbeaten(g, t1, a, c);
    PartUnbeaten(g, t1, k, c);
  }

  lemma SplitOptimal(g: Cluster, t0: Forest, k: nat, d: Dep, a: nat, t1: Forest)
    requires EvenlyParted(g, t0, k, d, a, t1)
    ensures Optimal(g, t1)
  {
    PartsUnbeaten(g, t0, k, d, a, t1);
    OptimalBesides(g, t0, t1, {a, k});
  }

  /** A split into two parts of equal feerate keeps everything. */
  lemma SplitSteady(g: Cluster, t0: Forest, k: nat, d: Dep, a: nat, t1: Forest)
    requires Steady(g, t0) && EvenlyParted(g, t0, k, d, a, t1) && !DependsOn(g, t1, a, k)
    ensures Steady(g, t1) && SameGain(g, t1, t0)
  {
    PartedIsCut(g, t0, k, d, a, t1);
    assert EvenCut(g, t0, k, t1, a);
    SplitOptimal(g, t0, k, d, a, t1);
    EvenCutWeakly(g, t0, k, t1, a);
    EvenCutAcyclic(g, t0, k, t1, a);
    forall slope: FeeFrac | slope.size > 0
      ensures GainOver(g, t1, t1.Keys, slope) == GainOver(g, t0, t0.Keys, slope)
    {
      EvenCutGain(g, t0, k, t1, a, slope);
    }
  }

  lemma RenamedWeakly(g: Cluster, t: Forest, k: nat, t': Forest, a: nat)
    requires Renamed(g, t, k, t', a) && Chunked(g, t') && WeaklyTopological(g, t)
    ensures WeaklyTopological(g, t')
  {
    forall x, y | x in t' && y in t' && x != y && DependsOn(g, t', x, y)
      ensures AtMost(RateOf(g, t', x), RateOf(g, t', y))
    {
      RenamedDepends(g, t, k, t', a, x, y);
    }
  }

  lemma OldNamesIn(before: set<nat>, after: set<nat>, k: nat, a: nat, U: set<nat>)
    requires k in before && a !in before && after == before - {k} + {a} && U <= after && U != {}
    ensures Uncut(U, k, a) <= before && Uncut(U, k, a) != {}
  {
    var i :| i in U;
    assert OldName(k, a, i) in Uncut(U, k, a);
  }

  ghost function NewName(k: nat, a: nat, i: nat): nat {
    if i == k then a else i
  }

  lemma FirstRenamed(g: Cluster, t: Forest, k: nat, t': Forest, a: nat, U: set<nat>, y: nat)
    requires Renamed(g, t, k, t', a) && Chunked(g, t') && U <= t'.Keys
    requires Uncut(U, k, a) <= t.Keys && FirstIn(g, t, Uncut(U, k, a), y)
    ensures FirstIn(g, t', U, NewName(k, a, y))
  {
    var x := NewName(k, a, y);
    assert x in U;
    forall z | z in U && z != x
      ensures !DependsOn(g, t', x, z)
    {
      NoneRenamed(g, t, k, t', a, U, y, z);
    }
  }

  lemma NoneRenamed(g: Cluster, t: Forest, k: nat, t': Forest, a: nat, U: set<nat>, y: nat, z: nat)
    requires Renamed(g, t, k, t', a) && Chunked(g, t') && U <= t'.Keys
    requires Uncut(U, k, a) <= t.Keys && FirstIn(g, t, Uncut(U, k, a), y)
    requires NewName(k, a, y) in U && z in U && z != NewName(k, a, y)
    ensures !DependsOn(g, t', NewName(k, a, y), z)
  {
    RenamedDepends(g, t, k, t', a, NewName(k, a, y), z);
  }

  lemma RenamedFirst(g: Cluster, t: Forest, k: nat, t': Forest, a: nat, U: set<nat>) returns (x: nat)
    requires Renamed(g, t, k, t', a) && Chunked(g, t') && AcyclicChunks(g, t) && U <= t'.Keys && U != {}
    ensures FirstIn(g, t', U, x)
  {
    OldNamesIn(t.Keys, t'.Keys, k, a, U);
    var y :| FirstIn(g, t, Uncut(U, k, a), y);
    FirstRenamed(g, t, k, t', a, U, y);
    x := NewName(k, a, y);
  }

  lemma RenamedAcyclic(g: Cluster, t: Forest, k: nat, t': Forest, a: nat)
    requires Renamed(g, t, k, t', a) && Chunked(g, t') && AcyclicChunks(g, t)
    ensures AcyclicChunks(g, t')
  {
    forall U: set<nat> | U <= t'.Keys && U != {}
      ensures exists x :: FirstIn(g, t', U, x)
    {
      var x := RenamedFirst(g, t, k, t', a, U);
    }
  }

  lemma BackUnbeaten(g: Cluster, t0: Forest, k: nat, d: Dep, a: nat, t1: Forest, e: Dep, t2: Forest)
    requires EvenlyParted(g, t0, k, d, a, t1) && Joined(t1, k, a, e, t2) && ValidForest(g, t2)
    requires Renamed(g, t0, k, t2, a)
    ensures Unbeaten(g, t2, a)
  {
    var c := RateOf(g, t0, k);
    PartsWeigh(g, t0, k, d, a, t1);
    JoinKeepsNoneBeats(t1[k], t1[a], Weights(g, c), e);
    WeightsOf(g, t2[a].txs, c);
    PartUnbeaten(g, t2, a, c);
  }

  lemma RenamedOptimal(g: Cluster, t0: Forest, k: nat, t2: Forest, a: nat)
    requires ValidForest(g, t0) && Optimal(g, t0) && ValidForest(g, t2)
    requires Renamed(g, t0, k, t2, a) && Unbeaten(g, t2, a)
    ensures Optimal(g, t2)
  {
    OptimalBesides(g, t0, t2, {a});
  }

  /** So does a split whose parts are joined again, the other way. */
  lemma BackSteady(g: Cluster, t0: Forest, k: nat, d: Dep, a: nat, t1: Forest, e: Dep, t2: Forest)
    requires Steady(g, t0) && EvenlyParted(g, t0, k, d, a, t1) && Joined(t1, k, a, e, t2) && ValidForest(g, t2)
    ensures Steady(g, t2) && SameGain(g, t2, t0) && Renamed(g, t0, k, t2, a)
  {
    ValidIsChunked(g, t2);
    JoinedAgain(g, t0, k, d, a, t1, e, t2);
    BackUnbeaten(g, t0, k, d, a, t1, e, t2);
    RenamedOptimal(g, t0, k, t2, a);
    RenamedWeakly(g, t0, k, t2, a);
    RenamedAcyclic(g, t0, k, t2, a);
    forall slope: FeeFrac | slope.size > 0
      ensures GainOver(g, t2, t2.Keys, slope) == GainOver(g, t0, t0.Keys, slope)
    {
      RenamedGain(g, t0, k, t2, a, slope);
    }
  }

  // --- the queue ---

  /** A chunk that may split, the transaction that it is to be split around,
      whether that is to be moved down, and whether this is the second try. */
  datatype Pending = Pending(chunk: nat, pivot: nat, moveDown: bool, secondStage: bool)

  /** Every entry is about another chunk, and its pivot is in there. */
  ghost predicate PendingIn(t: Forest, queue: seq<Pending>) {
    && (forall i :: 0 <= i < |queue| ==> queue[i].chunk in t && queue[i].pivot in t[queue[i].chunk].txs)
    && forall i, j :: 0 <= i < j < |queue| ==> queue[i].chunk != queue[j].chunk
  }

  /** The chunks that have an entry. */
  ghost function Pended(queue: seq<Pending>): set<nat> {
    set i | 0 <= i < |queue| :: queue[i].chunk
  }

  lemma TakePending(t: Forest, queue: seq<Pending>)
    requires PendingIn(t, queue) && queue != []
    ensures queue[0].chunk in t && queue[0].pivot in t[queue[0].chunk].txs
    ensures PendingIn(t, queue[1..]) && queue[0].chunk !in Pended(queue[1..])
  {
  }

  lemma AddPending(t: Forest, queue: seq<Pending>, e: Pending)
    requires PendingIn(t, queue) && e.chunk !in Pended(queue) && e.chunk in t && e.pivot in t[e.chunk].txs
    ensures PendingIn(t, queue + [e]) && Pended(queue + [e]) == Pended(queue) + {e.chunk}
  {
    var more := queue + [e];
    assert more[|queue|] == e;
    forall i | 0 <= i < |queue|
      ensures more[i] == queue[i] && queue[i].chunk in Pended(queue) && queue[i].chunk in Pended(more)
    {
      assert more[i].chunk in Pended(more);
    }
  }

  lemma KeepPending(t: Forest, t': Forest, queue: seq<Pending>)
    requires PendingIn(t, queue)
    requires forall i :: 0 <= i < |queue| ==> queue[i].chunk in t' && t'[queue[i].chunk] == t[queue[i].chunk]
    ensures PendingIn(t', queue)
  {
  }

  /** After the chunk `k` was taken off the queue and split, and both parts
      queued, in either order. */
  lemma PendingAfterSplit(t0: Forest, k: nat, d: Dep, a: nat, t1: Forest, queue: seq<Pending>, e: Pending, f: Pending,
                          queued: seq<Pending>)
    requires Parted(t0, k, d, a, t1) && PendingIn(t0, queue) && k !in Pended(queue)
    requires e.chunk == a && f.chunk == k && e.pivot in t1[a].txs && f.pivot in t1[k].txs
    requires var all := queue + [e] + [f]; queued == all || queued == Swapped(all, |queue|, |queue| + 1)
    ensures PendingIn(t1, queued)
  {
    KeepPending(t0, t1, queue);
    AddPending(t1, queue, e);
    AddPending(t1, queue + [e], f);
    SwapPending(t1, queue + [e] + [f], |queue|, |queue| + 1);
  }

  lemma PendingAfterRenaming(g: Cluster, t0: Forest, k: nat, t2: Forest, a: nat, queue: seq<Pending>, e: Pending)
    requires Renamed(g, t0, k, t2, a) && PendingIn(t0, queue) && k !in Pended(queue)
    requires e.chunk == a && e.pivot in t0[k].txs
    ensures PendingIn(t2, queue + [e])
  {
    KeepPending(t0, t2, queue);
    AddPending(t2, queue, e);
  }

  /** After both parts were joined again, and the chunk queued again. */
  lemma BackSettled(g: Cluster, t0: Forest, k: nat, d: Dep, a: nat, t1: Forest, e: Dep, t2: Forest,
                    queue: seq<Pending>, entry: Pending)
    requires Steady(g, t0) && EvenlyParted(g, t0, k, d, a, t1) && Joined(t1, k, a, e, t2) && ValidForest(g, t2)
    requires PendingIn(t0, queue) && k !in Pended(queue) && entry.pivot in t0[k].txs
    ensures Steady(g, t2) && SameGain(g, t2, t0) && PendingIn(t2, queue + [entry.(chunk := a)])
  {
    BackSteady(g, t0, k, d, a, t1, e, t2);
    PendingAfterRenaming(g, t0, k, t2, a, queue, entry.(chunk := a));
  }

  /** After one more entry was shuffled in. */
  lemma ShufflePending(t: Forest, queue: seq<Pending>, e: Pending, queue': seq<Pending>)
    requires PendingIn(t, queue) && e.chunk !in Pended(queue) && e.chunk in t && e.pivot in t[e.chunk].txs
    requires exists j :: 0 <= j <= |queue| && queue' == Swapped(queue + [e], j, |queue|)
    ensures PendingIn(t, queue')
    ensures Pended(queue') == Pended(queue) + {e.chunk}
  {
    var j :| 0 <= j <= |queue| && queue' == Swapped(queue + [e], j, |queue|);
    AddPending(t, queue, e);
    SwapPending(t, queue + [e], j, |queue|);
  }

  function Swapped<T>(q: seq<T>, i: nat, j: nat): seq<T>
    requires i <= j < |q|
  {
    q[j := q[i]][i := q[j]]
  }

  lemma SwapPending(t: Forest, queue: seq<Pending>, i: nat, j: nat)
    requires PendingIn(t, queue) && i <= j < |queue|
    ensures PendingIn(t, Swapped(queue, i, j)) && Pended(Swapped(queue, i, j)) == Pended(queue)
  {
    var swapped := Swapped(queue, i, j);
    forall k | 0 <= k < |queue|
      ensures queue[k].chunk in Pended(swapped)
    {
      assert queue[k] == swapped[if k == i then j else if k == j then i else k];
    }
    forall k | 0 <= k < |queue|
      ensures swapped[k].chunk in Pended(queue)
    {
      assert swapped[k] == queue[if k == i then j else if k == j then i else k];
    }
  }

  // --- what is minimal so far ---

  /** An entry in its second stage: its chunk cannot be split with the pivot in
      the part that was tried first. */
  ghost predicate Tried(g: Cluster, t: Forest, e: Pending)
    requires Chunked(g, t)
  {
    e.chunk in t && (e.secondStage ==> NoEvenPart(g, t[e.chunk].txs, e.pivot, e.moveDown))
  }

  /** Every chunk that is not queued, nor in `besides`, cannot be split. */
  ghost predicate MinimalBesides(g: Cluster, t: Forest, queue: seq<Pending>, besides: set<nat>)
    requires Chunked(g, t)
  {
    && (forall k :: k in t && k !in Pended(queue) && k !in besides ==> MinimalSet(g, t[k].txs))
    && forall e :: e in queue ==> Tried(g, t, e)
  }

  lemma AllMinimal(g: Cluster, t: Forest)
    requires Chunked(g, t) && MinimalBesides(g, t, [], {})
    ensures forall k :: k in t ==> MinimalSet(g, t[k].txs)
  {
  }

  /** No entry is in its second stage. */
  ghost predicate FirstTries(queue: seq<Pending>) {
    forall e :: e in queue ==> !e.secondStage
  }

  /** Every chunk in `chunks` is queued, for the first time. */
  ghost predicate FirstQueue(t: Forest, queue: seq<Pending>, chunks: set<nat>) {
    PendingIn(t, queue) && Pended(queue) == chunks && FirstTries(queue)
  }

  lemma ShuffleTries(queue: seq<Pending>, e: Pending, queue': seq<Pending>)
    requires !e.secondStage && exists j :: 0 <= j <= |queue| && queue' == Swapped(queue + [e], j, |queue|)
    ensures FirstTries(queue) ==> FirstTries(queue')
  {
    var j :| 0 <= j <= |queue| && queue' == Swapped(queue + [e], j, |queue|);
    forall f | f in queue'
      ensures f in queue + [e]
    {
    }
  }

  lemma NoneTried(g: Cluster, t: Forest, queue: seq<Pending>)
    requires Chunked(g, t) && PendingIn(t, queue) && Pended(queue) == t.Keys
    requires FirstTries(queue)
    ensures MinimalBesides(g, t, queue, {})
  {
    forall e | e in queue
      ensures Tried(g, t, e)
    {
      var i :| 0 <= i < |queue| && queue[i] == e;
    }
  }

  lemma TakeTried(g: Cluster, t: Forest, queue: seq<Pending>)
    requires Chunked(g, t) && MinimalBesides(g, t, queue, {}) && queue != []
    ensures Tried(g, t, queue[0]) && MinimalBesides(g, t, queue[1..], {queue[0].chunk})
  {
    assert queue[0] in queue;
    PendedFirst(queue);
    forall e | e in queue[1..]
      ensures Tried(g, t, e)
    {
      assert e in queue;
    }
  }

  lemma PendedFirst(queue: seq<Pending>)
    requires queue != []
    ensures Pended(queue) == {queue[0].chunk} + Pended(queue[1..])
  {
    assert queue == [queue[0]] + queue[1..];
    forall i | 0 <= i < |queue|
      ensures queue[i].chunk in {queue[0].chunk} + Pended(queue[1..])
    {
      assert i > 0 ==> queue[1..][i - 1] == queue[i];
    }
    forall i | 0 <= i < |queue[1..]|
      ensures queue[1..][i].chunk in Pended(queue)
    {
      assert queue[1..][i] == queue[i + 1];
    }
  }

  lemma PendedLast(queue: seq<Pending>, e: Pending)
    ensures Pended(queue + [e]) == Pended(queue) + {e.chunk}
  {
    var more := queue + [e];
    forall i | 0 <= i < |queue|
      ensures queue[i].chunk in Pended(more)
    {
      assert more[i] == queue[i];
    }
    assert more[|queue|] == e;
  }

  lemma OneMoreMinimal(g: Cluster, t: Forest, queue: seq<Pending>, k: nat)
    requires Chunked(g, t) && k in t && MinimalBesides(g, t, queue, {k}) && MinimalSet(g, t[k].txs)
    ensures MinimalBesides(g, t, queue, {})
  {
  }

  lemma OneMoreTried(g: Cluster, t: Forest, queue: seq<Pending>, e: Pending, besides: set<nat>)
    requires Chunked(g, t) && MinimalBesides(g, t, queue, besides + {e.chunk}) && Tried(g, t, e)
    ensures MinimalBesides(g, t, queue + [e], besides)
  {
    PendedLast(queue, e);
  }

  /** The entries whose chunks are as they were. */
  lemma KeepTried(g: Cluster, t: Forest, t': Forest, queue: seq<Pending>, besides: set<nat>, besides': set<nat>)
    requires Chunked(g, t) && Chunked(g, t') && MinimalBesides(g, t, queue, besides) && PendingIn(t, queue)
    requires forall i :: i in t' && i !in besides' ==> i in t && i !in besides && t'[i] == t[i]
    requires Pended(queue) !! besides && forall i :: i in t && i !in besides ==> i in t'
    requires Pended(queue) !! besides'
    ensures MinimalBesides(g, t', queue, besides')
  {
    forall e | e in queue
      ensures Tried(g, t', e)
    {
      var i :| 0 <= i < |queue| && queue[i] == e;
      assert queue[i].chunk in Pended(queue);
      assert Tried(g, t, e);
    }
  }

  lemma TriedAfterBack(g: Cluster, t0: Forest, k: nat, t2: Forest, a: nat, queue: seq<Pending>, e: Pending)
    requires Chunked(g, t2) && Renamed(g, t0, k, t2, a) && PendingIn(t0, queue) && k !in Pended(queue)
    requires MinimalBesides(g, t0, queue, {k}) && Tried(g, t0, e) && e.chunk == k
    ensures MinimalBesides(g, t2, queue + [e.(chunk := a)], {})
  {
    PendedWithin(t0, queue);
    KeepTried(g, t0, t2, queue, {k}, {a});
    OneMoreTried(g, t2, queue, e.(chunk := a), {});
  }

  lemma PendedWithin(t: Forest, queue: seq<Pending>)
    requires PendingIn(t, queue)
    ensures Pended(queue) <= t.Keys
  {
  }

  lemma PartsEven(g: Cluster, t0: Forest, k: nat, d: Dep, a: nat, t1: Forest)
    requires EvenlyParted(g, t0, k, d, a, t1) && !DependsOn(g, t1, a, k)
    ensures k in t1 && a in t1 && EvenParts(g, t0[k].txs, t1[a].txs, t1[k].txs)
  {
    PartedIsCut(g, t0, k, d, a, t1);
    CutChunked(g, t0, k, t1, a);
    CrossPlus(RateOf(g, t1, a), RateOf(g, t1, k), RateOf(g, t0, k));
    CrossFlip(RateOf(g, t0, k), RateOf(g, t0, k));
  }

  lemma PartsTried(g: Cluster, t0: Forest, k: nat, d: Dep, a: nat, t1: Forest, entry: Pending, e: Pending, f: Pending)
    requires EvenlyParted(g, t0, k, d, a, t1) && !DependsOn(g, t1, a, k) && Tried(g, t0, entry) && entry.chunk == k
    requires e.chunk == a && f.chunk == k && entry.pivot in t1[if entry.moveDown then k else a].txs
    requires if entry.moveDown then !e.secondStage && f == entry else !f.secondStage && e == entry.(chunk := a)
    ensures Tried(g, t1, e) && Tried(g, t1, f)
  {
    PartsEven(g, t0, k, d, a, t1);
    if entry.secondStage {
      StillNoEvenPart(g, t0[k].txs, t1[a].txs, t1[k].txs, entry.pivot, entry.moveDown);
    }
  }

  lemma OthersTried(g: Cluster, t0: Forest, k: nat, d: Dep, a: nat, t1: Forest, queue: seq<Pending>)
    requires EvenlyParted(g, t0, k, d, a, t1) && PendingIn(t0, queue) && k !in Pended(queue)
    requires MinimalBesides(g, t0, queue, {k})
    ensures MinimalBesides(g, t1, queue, {k} + {a})
  {
    PartedIsCut(g, t0, k, d, a, t1);
    PendedWithin(t0, queue);
    KeepTried(g, t0, t1, queue, {k}, {k} + {a});
  }

  /** Both parts are queued; the entry stays with the part that has the pivot. */
  lemma TriedAfterSplit(g: Cluster, t0: Forest, k: nat, d: Dep, a: nat, t1: Forest, queue: seq<Pending>, entry: Pending,
                        e: Pending, f: Pending)
    requires EvenlyParted(g, t0, k, d, a, t1) && !DependsOn(g, t1, a, k) && PendingIn(t0, queue) && k !in Pended(queue)
    requires MinimalBesides(g, t0, queue, {k}) && Tried(g, t0, entry) && entry.chunk == k
    requires e.chunk == a && f.chunk == k && entry.pivot in t1[if entry.moveDown then k else a].txs
    requires if entry.moveDown then !e.secondStage && f == entry else !f.secondStage && e == entry.(chunk := a)
    ensures MinimalBesides(g, t1, queue + [e] + [f], {})
  {
    PartsTried(g, t0, k, d, a, t1, entry, e, f);
    OthersTried(g, t0, k, d, a, t1, queue);
    QueueBoth(g, t1, queue, e, f);
  }

  lemma QueueBoth(g: Cluster, t: Forest, queue: seq<Pending>, e: Pending, f: Pending)
    requires Chunked(g, t) && MinimalBesides(g, t, queue, {f.chunk} + {e.chunk}) && Tried(g, t, e) && Tried(g, t, f)
    ensures MinimalBesides(g, t, queue + [e] + [f], {})
  {
    OneMoreTried(g, t, queue, e, {f.chunk});
    OneMoreTried(g, t, queue + [e], f, {});
  }

  lemma LastTwoTried(g: Cluster, t0: Forest, k: nat, d: Dep, a: nat, t1: Forest, queue: seq<Pending>, e: Pending,
                     f: Pending, queued: seq<Pending>)
    requires Chunked(g, t1) && Parted(t0, k, d, a, t1) && PendingIn(t0, queue) && k !in Pended(queue)
    requires e.chunk == a && f.chunk == k && e.pivot in t1[a].txs && f.pivot in t1[k].txs
    requires MinimalBesides(g, t1, queue + [e] + [f], {})
    requires var all := queue + [e] + [f]; queued == all || queued == Swapped(all, |queue|, |queue| + 1)
    ensures MinimalBesides(g, t1, queued, {})
  {
    PendingAfterSplit(t0, k, d, a, t1, queue, e, f, queue + [e] + [f]);
    SwapTried(g, t1, queue + [e] + [f], |queue|, |queue| + 1);
  }

  /** The chunk of `entry` was split, and its pivot is in the part that it was
      to be moved to. */
  ghost predicate Splitting(g: Cluster, t0: Forest, k: nat, d: Dep, a: nat, t1: Forest, queue: seq<Pending>,
                            entry: Pending)
  {
    && EvenlyParted(g, t0, k, d, a, t1) && !DependsOn(g, t1, a, k)
    && PendingIn(t0, queue) && k !in Pended(queue)
    && MinimalBesides(g, t0, queue, {k}) && Tried(g, t0, entry) && entry.chunk == k
    && entry.pivot in t1[if entry.moveDown then k else a].txs
  }

  /** Both parts of a split chunk are queued, in either order. */
  lemma PartsQueued(g: Cluster, t0: Forest, k: nat, d: Dep, a: nat, t1: Forest, queue: seq<Pending>, entry: Pending,
                    e: Pending, f: Pending, queued: seq<Pending>)
    requires Splitting(g, t0, k, d, a, t1, queue, entry)
    requires e.chunk == a && f.chunk == k && e.pivot in t1[a].txs && f.pivot in t1[k].txs
    requires if entry.moveDown then !e.secondStage && f == entry else !f.secondStage && e == entry.(chunk := a)
    requires var all := queue + [e] + [f]; queued == all || queued == Swapped(all, |queue|, |queue| + 1)
    ensures PendingIn(t1, queued) && MinimalBesides(g, t1, queued, {})
  {
    PendingAfterSplit(t0, k, d, a, t1, queue, e, f, queued);
    TriedAfterSplit(g, t0, k, d, a, t1, queue, entry, e, f);
    LastTwoTried(g, t0, k, d, a, t1, queue, e, f, queued);
  }

  /** The entry of a chunk whose parts were joined again. */
  lemma BackTried(g: Cluster, t0: Forest, k: nat, d: Dep, a: nat, t1: Forest, e: Dep, t2: Forest,
                  queue: seq<Pending>, entry: Pending)
    requires EvenlyParted(g, t0, k, d, a, t1) && Joined(t1, k, a, e, t2) && Chunked(g, t2)
    requires PendingIn(t0, queue) && k !in Pended(queue)
    requires MinimalBesides(g, t0, queue, {k}) && Tried(g, t0, entry) && entry.chunk == k
    ensures MinimalBesides(g, t2, queue + [entry.(chunk := a)], {})
  {
    JoinedAgain(g, t0, k, d, a, t1, e, t2);
    TriedAfterBack(g, t0, k, t2, a, queue, entry);
  }

  lemma SwapTried(g: Cluster, t: Forest, queue: seq<Pending>, i: nat, j: nat)
    requires Chunked(g, t) && PendingIn(t, queue) && MinimalBesides(g, t, queue, {}) && i <= j < |queue|
    ensures MinimalBesides(g, t, Swapped(queue, i, j), {})
  {
    SwapPending(t, queue, i, j);
    forall e | e in Swapped(queue, i, j)
      ensures Tried(g, t, e)
    {
      assert e in queue;
    }
  }
}
