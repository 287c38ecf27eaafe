/** Announcing queued transactions to a peer, a few at a time: the queue is read
    in one of two orders, whichever is faster. */
module Trickles {
  import opened Sequences

  type Wtxid = nat

  const BROADCAST_TARGET := 70
  const BROADCAST_MAX := 1000

  /** How many announcements one trickle may send. */
  function TrickleCap(queued: nat): (cap: nat)
    ensures BROADCAST_TARGET <= cap <= BROADCAST_MAX
    ensures cap < BROADCAST_MAX ==> cap == BROADCAST_TARGET + queued / 1000 * 5
  {
    var cap := BROADCAST_TARGET + queued / 1000 * 5;
    if cap < BROADCAST_MAX then cap else BROADCAST_MAX
  }

  /** More that are queued are never a reason to send fewer. */
  lemma CapGrows(a: nat, b: nat)
    requires a <= b
    ensures TrickleCap(a) <= TrickleCap(b)
    ensures TrickleCap(a) == BROADCAST_MAX <==> a >= 186000
  {
  }

  /** The entries of `s` that are in `keep`, in the order of `s`. */
  function Kept(s: seq<Wtxid>, keep: set<Wtxid>): (r: seq<Wtxid>)
    ensures forall x :: x in r <==> x in s && x in keep
  {
    if s == [] then [] else if s[0] in keep then [s[0]] + Kept(s[1..], keep) else Kept(s[1..], keep)
  }

  // --- what a trickle pops ---

  /** How many of the entries of `sorted` are popped: until so many of them are
      sent, or there is none left. */
  function PopCount(sorted: seq<Wtxid>, cap: nat, send: set<Wtxid>): (n: nat)
    ensures n <= |sorted|
  {
    if sorted == [] || cap == 0 then 0
    else 1 + PopCount(sorted[1..], if sorted[0] in send then cap - 1 else cap, send)
  }

  /** Exactly the first entries are popped: those that are to be sent among them
      fill the cap, or nothing is left, and not one more is popped than that
      takes. */
  lemma {:induction false} PopsTheFirst(sorted: seq<Wtxid>, cap: nat, send: set<Wtxid>)
    ensures var n := PopCount(sorted, cap, send);
            && |Kept(sorted[..n], send)| <= cap
            && (n < |sorted| ==> |Kept(sorted[..n], send)| == cap)
            && forall k :: 0 <= k < n ==> |Kept(sorted[..k], send)| < cap
    decreases |sorted|
  {
    var n := PopCount(sorted, cap, send);
    if sorted != [] && cap > 0 {
      var rest, cap' := sorted[1..], if sorted[0] in send then cap - 1 else cap;
      PopsTheFirst(rest, cap', send);
      forall k | 0 < k <= n
        ensures |Kept(sorted[..k], send)| == |Kept(rest[..k - 1], send)| + if sorted[0] in send then 1 else 0
      {
        assert sorted[..k][1..] == rest[..k - 1];
      }
    }
  }

  /** And there is only one such number. */
  lemma OnePopCount(sorted: seq<Wtxid>, cap: nat, send: set<Wtxid>, n: nat)
    requires n <= |sorted| && (n < |sorted| ==> |Kept(sorted[..n], send)| == cap)
    requires forall k :: 0 <= k < n ==> |Kept(sorted[..k], send)| < cap
    ensures n == PopCount(sorted, cap, send)
  {
    PopsTheFirst(sorted, cap, send);
  }

  // --- the two orders ---

  /** `rank` is the position of each entry in `ranked`. */
  ghost predicate IsRank(ranked: seq<Wtxid>, rank: map<Wtxid, nat>) {
    && Distinct(ranked) && rank.Keys == Elements(ranked)
    && forall i :: 0 <= i < |ranked| ==> ranked[i] in rank && rank[ranked[i]] == i
  }

  ghost predicate ByRank(s: seq<Wtxid>, rank: map<Wtxid, nat>) {
    && (forall i :: 0 <= i < |s| ==> s[i] in rank)
    && forall i, j :: 0 <= i < j < |s| ==> rank[s[i]] < rank[s[j]]
  }

  /** In order of rank, a set is listed in one way only. */
  lemma {:induction false} OneOrder(a: seq<Wtxid>, b: seq<Wtxid>, rank: map<Wtxid, nat>)
    requires ByRank(a, rank) && ByRank(b, rank) && Elements(a) == Elements(b)
    ensures a == b
    decreases |a|
  {
    if a == [] {
      assert Elements(a) == {};
      EachIsElement(b);
    } else {
      assert a[0] in Elements(a);
      var j :| 0 <= j < |b| && b[j] == a[0];
      assert b[0] in Elements(b);
      var i :| 0 <= i < |a| && a[i] == b[0];
      assert a[0] == b[0];
      LessFirst(a, rank);
      LessFirst(b, rank);
      OneOrder(a[1..], b[1..], rank);
      assert a == [a[0]] + a[1..] && b == [b[0]] + b[1..];
    }
  }

  lemma LessFirst(a: seq<Wtxid>, rank: map<Wtxid, nat>)
    requires ByRank(a, rank) && a != []
    ensures Elements(a[1..]) == Elements(a) - {a[0]} && ByRank(a[1..], rank)
  {
    forall x | x in Elements(a) - {a[0]}
      ensures x in Elements(a[1..])
    {
      var i :| 0 <= i < |a| && a[i] == x;
      assert a[1..][i - 1] == x;
    }
  }

  /** Whatever is after the first entry ranks after it. */
  lemma FirstByRank(s: seq<Wtxid>, rest: seq<Wtxid>, rank: map<Wtxid, nat>)
    requires ByRank(s, rank) && s != [] && forall x :: x in rest ==> x in s[1..]
    ensures forall i :: 0 <= i < |rest| ==> rest[i] in rank && rank[s[0]] < rank[rest[i]]
  {
    forall i | 0 <= i < |rest|
      ensures rest[i] in rank && rank[s[0]] < rank[rest[i]]
    {
      assert rest[i] in s[1..];
      var k :| 0 <= k < |s[1..]| && s[1..][k] == rest[i];
      assert s[k + 1] == rest[i];
    }
  }

  lemma {:induction false} KeptByRank(s: seq<Wtxid>, keep: set<Wtxid>, rank: map<Wtxid, nat>)
    requires ByRank(s, rank)
    ensures ByRank(Kept(s, keep), rank)
    decreases |s|
  {
    if s != [] {
      KeptByRank(s[1..], keep, rank);
      FirstByRank(s, Kept(s[1..], keep), rank);
    }
  }

  /** Walking all that is ranked and skipping what is not queued is the same as
      sorting the queue by rank. */
  lemma WalkIsSort(ranked: seq<Wtxid>, rank: map<Wtxid, nat>, queue: set<Wtxid>, sorted: seq<Wtxid>)
    requires IsRank(ranked, rank) && queue <= Elements(ranked)
    requires ByRank(sorted, rank) && Elements(sorted) == queue
    ensures Kept(ranked, queue) == sorted && Kept(sorted, queue) == sorted
  {
    KeptByRank(ranked, queue, rank);
    OneOrder(Kept(ranked, queue), sorted, rank);
    KeptByRank(sorted, queue, rank);
    OneOrder(Kept(sorted, queue), sorted, rank);
  }

  /** A connection's queue, and what the peer is known to have. */
  class Connection {
    var queue: set<Wtxid>
    const known: set<Wtxid>
    const belowFilter: set<Wtxid>

    /** What a trickle sends of what it pops. */
    ghost function Sends(held: set<Wtxid>, txs: set<Wtxid>): set<Wtxid> {
      set w | w in txs && IsSent(held, w)
    }

    /** Held, unknown to the peer, and not below its filter. */
    predicate IsSent(held: set<Wtxid>, w: Wtxid) {
      w in held && w !in known && w !in belowFilter
    }

    /** Adds an entry to the batch if it is held, unknown to the peer, and not
        below its filter. */
    method Offer(held: set<Wtxid>, wtxid: Wtxid, batch: seq<Wtxid>) returns (batch': seq<Wtxid>)
      ensures batch' == if IsSent(held, wtxid) then batch + [wtxid] else batch
    {
      batch' := batch;
      if wtxid !in held {
        return;
      }
      if wtxid !in known && wtxid !in belowFilter {
        batch' := batch + [wtxid];
      }
    }

    /** Pops what one trickle sends, in order of rank. The result does not depend
        on the order that is walked: exactly the first entries are popped, until
        the cap is filled or the queue is empty, and those among them that are
        held, unknown and not below the filter are sent. */
    method PopTrickle(cap: nat, ranked: seq<Wtxid>, rank: map<Wtxid, nat>, held: set<Wtxid>) returns (batch: seq<Wtxid>)
      requires IsRank(ranked, rank) && queue <= Elements(ranked)
      modifies `queue
      ensures var sorted, send := Kept(ranked, old(queue)), Sends(held, old(queue));
              var n := PopCount(sorted, cap, send);
              && batch == Kept(sorted[..n], send)
              && queue == old(queue) - Elements(sorted[..n])
    {
      var order;
      if |queue| * |queue| >= cap * |ranked| {
        order := ranked;
      } else {
        order := SortedByRank(queue, rank);
        RankedElements(ranked, rank);
        WalkIsSort(ranked, rank, queue, order);
      }
      batch := Walk(order, cap, held);
    }

    /** Walks `order`, and skips what is not queued. */
    method Walk(order: seq<Wtxid>, cap: nat, held: set<Wtxid>) returns (batch: seq<Wtxid>)
      requires Distinct(order) && queue <= Elements(order)
      modifies `queue
      ensures var sorted, send := Kept(order, old(queue)), Sends(held, old(queue));
              var n := PopCount(sorted, cap, send);
              && batch == Kept(sorted[..n], send)
              && queue == old(queue) - Elements(sorted[..n])
    {
      ghost var before, send := queue, Sends(held, queue);
      ghost var sorted, n: nat := Kept(order, queue), 0;
      batch := [];
      var i := 0;
      PoppingStart(order, queue, cap, send);
      while i < |order| && |batch| != cap && queue != {}
        invariant Popping(order, i, sorted, n, before, queue, cap, send, batch)
        decreases |order| - i
      {
        PoppingStep(order, i, sorted, n, before, queue, cap, send, batch);
        ghost var (queue', n', batch') := Popped(order[i], queue, n, send, batch);
        var wtxid := order[i];
        if wtxid in queue {
          queue := queue - {wtxid};
          batch := Offer(held, wtxid, batch);
        }
        n := n';
        assert queue == queue' && batch == batch';
        i := i + 1;
      }
      PoppingEnd(order, i, sorted, n, before, queue, cap, send, batch);
    }
  }

  ghost predicate Popping(order: seq<Wtxid>, i: nat, sorted: seq<Wtxid>, n: nat, before: set<Wtxid>, queue: set<Wtxid>,
                          cap: nat, send: set<Wtxid>, batch: seq<Wtxid>)
  {
    && Walked(order, i, sorted, n, before) && queue == before - Elements(sorted[..n])
    && Batched(sorted, n, cap, send, batch)
  }

  lemma PoppingEnd(order: seq<Wtxid>, i: nat, sorted: seq<Wtxid>, n: nat, before: set<Wtxid>, queue: set<Wtxid>,
                   cap: nat, send: set<Wtxid>, batch: seq<Wtxid>)
    requires Popping(order, i, sorted, n, before, queue, cap, send, batch)
    requires i == |order| || |batch| == cap || queue == {}
    ensures n == PopCount(sorted, cap, send) && batch == Kept(sorted[..n], send)
    ensures queue == before - Elements(sorted[..n])
  {
    WalkedAll(order, i, sorted, n, before, queue, cap, |batch|, send);
  }

  lemma PoppingStart(order: seq<Wtxid>, before: set<Wtxid>, cap: nat, send: set<Wtxid>)
    requires Distinct(order)
    ensures Popping(order, 0, Kept(order, before), 0, before, before, cap, send, [])
  {
    var sorted := Kept(order, before);
    assert sorted[..0] == [] && sorted[0..] == sorted && order[..0] == [] && order[0..] == order;
    assert Elements([]) == {};
  }

  /** What one step leaves. */
  ghost function Popped(w: Wtxid, queue: set<Wtxid>, n: nat, send: set<Wtxid>, batch: seq<Wtxid>)
    : (set<Wtxid>, nat, seq<Wtxid>)
  {
    if w in queue then (queue - {w}, n + 1, if w in send then batch + [w] else batch) else (queue, n, batch)
  }

  lemma PoppingStep(order: seq<Wtxid>, i: nat, sorted: seq<Wtxid>, n: nat, before: set<Wtxid>, queue: set<Wtxid>,
                    cap: nat, send: set<Wtxid>, batch: seq<Wtxid>)
    requires Popping(order, i, sorted, n, before, queue, cap, send, batch) && i < |order| && |batch| != cap
    ensures var (queue', n', batch') := Popped(order[i], queue, n, send, batch);
            Popping(order, i + 1, sorted, n', before, queue', cap, send, batch')
    ensures order[i] in queue ==> order[i] in before
  {
    WalkedOne(order, i, sorted, n, before);
    if order[i] in queue {
      BatchedOne(sorted, n, cap, send, batch);
    }
  }

  /** The batch, after the first `n` entries were popped. */
  ghost predicate Batched(sorted: seq<Wtxid>, n: nat, cap: nat, send: set<Wtxid>, batch: seq<Wtxid>) {
    && n <= |sorted| && batch == Kept(sorted[..n], send) && |batch| <= cap
    && n + PopCount(sorted[n..], cap - |batch|, send) == PopCount(sorted, cap, send)
  }

  lemma BatchedOne(sorted: seq<Wtxid>, n: nat, cap: nat, send: set<Wtxid>, batch: seq<Wtxid>)
    requires Batched(sorted, n, cap, send, batch) && n < |sorted| && |batch| != cap
    ensures Batched(sorted, n + 1, cap, send, if sorted[n] in send then batch + [sorted[n]] else batch)
    ensures Elements(sorted[..n + 1]) == Elements(sorted[..n]) + {sorted[n]}
  {
    PoppedOne(sorted, n, send);
  }

  lemma RankedElements(ranked: seq<Wtxid>, rank: map<Wtxid, nat>)
    requires IsRank(ranked, rank)
    ensures ByRank(ranked, rank)
  {
  }

  /** After `i` entries of `order`, the first `n` of those that are queued are
      behind, and the others are ahead. */
  ghost predicate Walked(order: seq<Wtxid>, i: nat, sorted: seq<Wtxid>, n: nat, before: set<Wtxid>) {
    && i <= |order| && n <= |sorted| && Distinct(order) && sorted == Kept(order, before)
    && Kept(order[..i], before) == sorted[..n] && Kept(order[i..], before) == sorted[n..]
  }

  lemma {:induction false} KeptConcat(a: seq<Wtxid>, b: seq<Wtxid>, keep: set<Wtxid>)
    ensures Kept(a + b, keep) == Kept(a, keep) + Kept(b, keep)
    decreases |a|
  {
    if a == [] {
      assert a + b == b;
    } else {
      assert (a + b)[1..] == a[1..] + b;
      KeptConcat(a[1..], b, keep);
    }
  }

  /** The next entry is queued exactly where it was and is not yet popped. */
  lemma WalkedOne(order: seq<Wtxid>, i: nat, sorted: seq<Wtxid>, n: nat, before: set<Wtxid>)
    requires Walked(order, i, sorted, n, before) && i < |order|
    ensures order[i] in before - Elements(sorted[..n]) <==> order[i] in before
    ensures if order[i] in before
            then n < |sorted| && sorted[n] == order[i] && Walked(order, i + 1, sorted, n + 1, before)
            else Walked(order, i + 1, sorted, n, before)
  {
    var x := order[i];
    assert order[..i + 1] == order[..i] + [x] && order[i..] == [x] + order[i + 1..];
    KeptConcat(order[..i], [x], before);
    KeptConcat([x], order[i + 1..], before);
    assert [x][1..] == [];
    if x in before {
      assert sorted[n..] == [x] + Kept(order[i + 1..], before);
      assert sorted[n..][0] == x;
      assert sorted[n + 1..] == sorted[n..][1..];
      assert sorted[..n + 1] == sorted[..n] + [x];
      forall k | 0 <= k < n
        ensures sorted[k] != x
      {
        assert sorted[..n][k] == sorted[k];
        assert sorted[k] in Kept(order[..i], before);
        var m :| 0 <= m < i && order[..i][m] == sorted[k];
        assert order[m] == sorted[k];
      }
    }
  }

  lemma PoppedOne(sorted: seq<Wtxid>, n: nat, send: set<Wtxid>)
    requires n < |sorted|
    ensures sorted[..n + 1] == sorted[..n] + [sorted[n]] && sorted[n..][1..] == sorted[n + 1..] && sorted[n..] != []
    ensures sorted[n..][0] == sorted[n]
    ensures Kept(sorted[..n + 1], send) == Kept(sorted[..n], send) + if sorted[n] in send then [sorted[n]] else []
    ensures Elements(sorted[..n + 1]) == Elements(sorted[..n]) + {sorted[n]}
  {
    assert sorted[..n + 1] == sorted[..n] + [sorted[n]];
    KeptConcat(sorted[..n], [sorted[n]], send);
    assert [sorted[n]][1..] == [];
  }

  /** When the walk stops. */
  lemma WalkedAll(order: seq<Wtxid>, i: nat, sorted: seq<Wtxid>, n: nat, before: set<Wtxid>, queue: set<Wtxid>,
                  cap: nat, sent: nat, send: set<Wtxid>)
    requires Walked(order, i, sorted, n, before) && queue == before - Elements(sorted[..n]) && sent <= cap
    requires i == |order| || sent == cap || queue == {}
    ensures PopCount(sorted[n..], cap - sent, send) == 0
  {
    if i == |order| {
      assert order[i..] == [];
    } else {
      StillQueued(order, sorted, n, before);
    }
  }

  lemma {:induction false} KeptDistinct(order: seq<Wtxid>, keep: set<Wtxid>)
    requires Distinct(order)
    ensures Distinct(Kept(order, keep))
    decreases |order|
  {
    if order != [] {
      var rest := order[1..];
      assert forall i, j :: 0 <= i < j < |rest| ==> rest[i] == order[i + 1] && rest[j] == order[j + 1];
      KeptDistinct(rest, keep);
      var kept := Kept(rest, keep);
      forall i | 0 <= i < |kept|
        ensures kept[i] != order[0]
      {
        assert kept[i] in kept;
        var k :| 0 <= k < |rest| && rest[k] == kept[i];
        assert order[k + 1] == kept[i];
      }
    }
  }

  /** What is not popped is still queued. */
  lemma StillQueued(order: seq<Wtxid>, sorted: seq<Wtxid>, n: nat, before: set<Wtxid>)
    requires Distinct(order) && sorted == Kept(order, before) && n <= |sorted|
    ensures forall k :: n <= k < |sorted| ==> sorted[k] in before - Elements(sorted[..n])
  {
    KeptDistinct(order, before);
    forall k | n <= k < |sorted|
      ensures sorted[k] in before - Elements(sorted[..n])
    {
      assert sorted[k] in sorted;
      forall i | 0 <= i < n
        ensures sorted[..n][i] != sorted[k]
      {
        assert sorted[..n][i] == sorted[i];
      }
    }
  }

  /** A queue in order of rank. */
  method SortedByRank(queue: set<Wtxid>, rank: map<Wtxid, nat>) returns (sorted: seq<Wtxid>)
    requires queue <= rank.Keys && forall a, b :: a in rank && b in rank && rank[a] == rank[b] ==> a == b
    ensures ByRank(sorted, rank) && Elements(sorted) == queue
  {
    sorted := [];
    var todo := queue;
    while todo != {}
      invariant todo <= queue && ByRank(sorted, rank) && Elements(sorted) == queue - todo
    {
      var x :| x in todo;
      todo := todo - {x};
      sorted := InsertByRank(sorted, x, rank);
    }
  }

  method InsertByRank(s: seq<Wtxid>, x: Wtxid, rank: map<Wtxid, nat>) returns (s': seq<Wtxid>)
    requires ByRank(s, rank) && x in rank && x !in s
    requires forall a, b :: a in rank && b in rank && rank[a] == rank[b] ==> a == b
    ensures ByRank(s', rank) && Elements(s') == Elements(s) + {x}
  {
    var i := |s|;
    while i > 0 && rank[s[i - 1]] > rank[x]
      invariant 0 <= i <= |s| && forall j :: i <= j < |s| ==> rank[x] < rank[s[j]]
    {
      i := i - 1;
    }
    Inserted(s, x, i, rank);
    s' := s[..i] + [x] + s[i..];
  }

  lemma Inserted(s: seq<Wtxid>, x: Wtxid, i: nat, rank: map<Wtxid, nat>)
    requires ByRank(s, rank) && x in rank && x !in s && i <= |s|
    requires forall a, b :: a in rank && b in rank && rank[a] == rank[b] ==> a == b
    requires forall j :: i <= j < |s| ==> rank[x] < rank[s[j]]
    requires i > 0 ==> rank[s[i - 1]] <= rank[x]
    ensures ByRank(s[..i] + [x] + s[i..], rank) && Elements(s[..i] + [x] + s[i..]) == Elements(s) + {x}
  {
    MembersInserted(s, x, i);
    assert i > 0 ==> s[i - 1] in s;
    RanksBelow(s, x, i, rank);
  }

  lemma RanksBelow(s: seq<Wtxid>, x: Wtxid, i: nat, rank: map<Wtxid, nat>)
    requires ByRank(s, rank) && x in rank && i <= |s| && (i > 0 ==> rank[s[i - 1]] < rank[x])
    ensures forall j :: 0 <= j < i ==> rank[s[j]] < rank[x]
  {
    forall j | 0 <= j < i
      ensures rank[s[j]] < rank[x]
    {
      assert j < i - 1 ==> rank[s[j]] < rank[s[i - 1]];
    }
  }

  // --- ranking ---

  /** The mining order: what the mempool no longer holds comes first. */
  predicate KeyBefore(held: set<Wtxid>, key: Wtxid -> int, a: Wtxid, b: Wtxid) {
    b in held && (a !in held || key(a) < key(b))
  }

  /** `a` is first seen before `b` is, in what all queues hold one after the
      other. */
  ghost predicate SeenBefore(all: seq<Wtxid>, a: Wtxid, b: Wtxid) {
    exists i :: 0 <= i < |all| && all[i] == a && b !in all[..i + 1]
  }

  /** What all queues hold, one after the other. */
  ghost function Flat(queues: seq<seq<Wtxid>>): (all: seq<Wtxid>)
    ensures forall w :: w in all <==> exists c :: 0 <= c < |queues| && w in queues[c]
  {
    if queues == [] then [] else
      var n := |queues| - 1;
      assert forall w :: w in Flat(queues[..n]) + queues[n] <==> w in Flat(queues[..n]) || w in queues[n];
      Flat(queues[..n]) + queues[n]
  }

  /** The place in which a trickle pops the entries: by key, and among equals in
      the order in which they are first seen. */
  ghost predicate PopsBefore(held: set<Wtxid>, key: Wtxid -> int, all: seq<Wtxid>, a: Wtxid, b: Wtxid) {
    KeyBefore(held, key, a, b) || (!KeyBefore(held, key, b, a) && SeenBefore(all, a, b))
  }

  /** By key, and what has the lower place goes first among equals. */
  ghost predicate InRankOrder(held: set<Wtxid>, key: Wtxid -> int, pos: map<Wtxid, nat>, a: Wtxid, b: Wtxid) {
    KeyBefore(held, key, a, b) || (!KeyBefore(held, key, b, a) && a in pos && b in pos && pos[a] < pos[b])
  }

  ghost predicate Ranked(held: set<Wtxid>, key: Wtxid -> int, pos: map<Wtxid, nat>, s: seq<Wtxid>) {
    forall i, j :: 0 <= i < j < |s| ==> InRankOrder(held, key, pos, s[i], s[j])
  }

  lemma RankedDistinct(held: set<Wtxid>, key: Wtxid -> int, pos: map<Wtxid, nat>, s: seq<Wtxid>)
    requires Ranked(held, key, pos, s)
    ensures Distinct(s)
  {
    forall i, j | 0 <= i < j < |s|
      ensures s[i] != s[j]
    {
      assert InRankOrder(held, key, pos, s[i], s[j]);
    }
  }

  /** The entries of all queues, each where it is first seen. */
  method AllQueued(queues: seq<seq<Wtxid>>) returns (queued: seq<Wtxid>)
    ensures FirstSeen(queued, Flat(queues))
  {
    queued := [];
    for c := 0 to |queues|
      invariant FirstSeen(queued, Flat(queues[..c]))
    {
      assert queues[..c + 1][..c] == queues[..c];
      queued := Merged(queued, queues[c], Flat(queues[..c]));
    }
    assert queues[..|queues|] == queues;
  }

  /** `queued` has every entry of `all` once, where it is first seen. */
  ghost predicate FirstSeen(queued: seq<Wtxid>, all: seq<Wtxid>) {
    && (forall w :: w in queued <==> w in all)
    && forall i, j :: 0 <= i < j < |queued| ==> SeenBefore(all, queued[i], queued[j])
  }

  lemma SeenBeforeMore(all: seq<Wtxid>, a: Wtxid, b: Wtxid, w: Wtxid)
    ensures SeenBefore(all, a, b) ==> SeenBefore(all + [w], a, b)
    ensures a in all && w !in all ==> SeenBefore(all + [w], a, w)
  {
    if SeenBefore(all, a, b) {
      var i :| 0 <= i < |all| && all[i] == a && b !in all[..i + 1];
      SeenAt(all, a, b, w, i);
    }
    if a in all && w !in all {
      var i :| 0 <= i < |all| && all[i] == a;
      SeenAt(all, a, w, w, i);
    }
  }

  lemma SeenAt(all: seq<Wtxid>, a: Wtxid, b: Wtxid, w: Wtxid, i: nat)
    requires i < |all| && all[i] == a && b !in all[..i + 1]
    ensures SeenBefore(all + [w], a, b)
  {
    var more := all + [w];
    assert more[..i + 1] == all[..i + 1] && more[i] == a;
  }

  lemma SeenBeforeDiffers(all: seq<Wtxid>, a: Wtxid, b: Wtxid)
    requires SeenBefore(all, a, b)
    ensures a != b
  {
    var i :| 0 <= i < |all| && all[i] == a && b !in all[..i + 1];
    assert all[..i + 1][i] == a;
  }

  lemma FirstSeenMore(queued: seq<Wtxid>, all: seq<Wtxid>, w: Wtxid)
    requires FirstSeen(queued, all)
    ensures FirstSeen(if w in queued then queued else queued + [w], all + [w])
  {
    var more := if w in queued then queued else queued + [w];
    forall i, j | 0 <= i < j < |more|
      ensures SeenBefore(all + [w], more[i], more[j])
    {
      SeenBeforeMore(all, more[i], more[j], w);
    }
  }

  lemma OneMoreOf(before: seq<Wtxid>, queue: seq<Wtxid>, i: nat)
    requires i < |queue|
    ensures before + queue[..i + 1] == before + queue[..i] + [queue[i]]
  {
  }

  method Merged(queued: seq<Wtxid>, queue: seq<Wtxid>, ghost before: seq<Wtxid>) returns (all: seq<Wtxid>)
    requires FirstSeen(queued, before)
    ensures FirstSeen(all, before + queue)
  {
    all := queued;
    assert before + queue[..0] == before;
    for i := 0 to |queue|
      invariant FirstSeen(all, before + queue[..i])
    {
      FirstSeenMore(all, before + queue[..i], queue[i]);
      OneMoreOf(before, queue, i);
      if queue[i] !in all {
        all := all + [queue[i]];
      }
    }
    assert queue[..|queue|] == queue;
  }

  /** Every entry queued for any of the connections, in the order in which a
      trickle pops them. */
  method RankQueued(queues: seq<seq<Wtxid>>, held: set<Wtxid>, key: Wtxid -> int) returns (ranked: seq<Wtxid>)
    ensures Distinct(ranked) && forall w :: w in ranked <==> exists c :: 0 <= c < |queues| && w in queues[c]
    ensures forall i, j :: 0 <= i < j < |ranked| ==> PopsBefore(held, key, Flat(queues), ranked[i], ranked[j])
  {
    var queued := AllQueued(queues);
    FirstSeenDistinct(queued, Flat(queues));
    ghost var pos: map<Wtxid, nat> := map[];
    ranked := [];
    for i := 0 to |queued|
      invariant Ranked(held, key, pos, ranked) && pos.Keys == Elements(ranked) == Elements(queued[..i])
      invariant forall w :: w in pos ==> pos[w] < i && queued[pos[w]] == w
    {
      assert queued[..i + 1] == queued[..i] + [queued[i]];
      assert queued[i] !in queued[..i];
      ghost var before := pos;
      pos := pos[queued[i] := i];
      ranked := RankOne(ranked, queued[i], held, key, before, pos);
    }
    assert queued[..|queued|] == queued;
    RankedDistinct(held, key, pos, ranked);
    RankedPops(held, key, pos, ranked, queued, Flat(queues));
    assert forall w :: w in ranked <==> w in Elements(ranked);
    assert forall w :: w in queued <==> w in Elements(queued);
  }

  lemma FirstSeenDistinct(queued: seq<Wtxid>, all: seq<Wtxid>)
    requires FirstSeen(queued, all)
    ensures Distinct(queued)
  {
    forall i, j | 0 <= i < j < |queued|
      ensures queued[i] != queued[j]
    {
      SeenBeforeDiffers(all, queued[i], queued[j]);
    }
  }

  /** The places are those in which the entries are first seen. */
  lemma RankedPops(held: set<Wtxid>, key: Wtxid -> int, pos: map<Wtxid, nat>, ranked: seq<Wtxid>, queued: seq<Wtxid>,
                   all: seq<Wtxid>)
    requires Ranked(held, key, pos, ranked) && FirstSeen(queued, all)
    requires forall w :: w in pos ==> pos[w] < |queued| && queued[pos[w]] == w
    ensures forall i, j :: 0 <= i < j < |ranked| ==> PopsBefore(held, key, all, ranked[i], ranked[j])
  {
    forall i, j | 0 <= i < j < |ranked|
      ensures PopsBefore(held, key, all, ranked[i], ranked[j])
    {
      assert InRankOrder(held, key, pos, ranked[i], ranked[j]);
    }
  }

  /** Puts an entry after all whose key is no higher. */
  method RankOne(ranked: seq<Wtxid>, w: Wtxid, held: set<Wtxid>, key: Wtxid -> int, ghost before: map<Wtxid, nat>,
                 ghost pos: map<Wtxid, nat>)
    returns (ranked': seq<Wtxid>)
    requires Ranked(held, key, before, ranked) && before.Keys == Elements(ranked) && Later(before, w, pos)
    ensures Ranked(held, key, pos, ranked') && Elements(ranked') == Elements(ranked) + {w}
  {
    var i := |ranked|;
    while i > 0 && KeyBefore(held, key, w, ranked[i - 1])
      invariant 0 <= i <= |ranked| && forall j :: i <= j < |ranked| ==> KeyBefore(held, key, w, ranked[j])
    {
      i := i - 1;
    }
    RankedInserted(ranked, w, i, held, key, before, pos);
    ranked' := ranked[..i] + [w] + ranked[i..];
  }

  /** `w` comes after what `before` has. */
  ghost predicate Later(before: map<Wtxid, nat>, w: Wtxid, pos: map<Wtxid, nat>) {
    w !in before && w in pos && pos == before[w := pos[w]] && forall x :: x in before ==> before[x] < pos[w]
  }

  lemma MembersInserted(s: seq<Wtxid>, w: Wtxid, i: nat)
    requires i <= |s|
    ensures Elements(s[..i] + [w] + s[i..]) == Elements(s) + {w}
  {
    assert s == s[..i] + s[i..];
  }

  lemma NoneBefore(ranked: seq<Wtxid>, w: Wtxid, i: nat, held: set<Wtxid>, key: Wtxid -> int, before: map<Wtxid, nat>)
    requires Ranked(held, key, before, ranked) && i <= |ranked|
    requires i > 0 ==> !KeyBefore(held, key, w, ranked[i - 1])
    ensures forall j :: 0 <= j < i ==> !KeyBefore(held, key, w, ranked[j])
  {
    forall j | 0 <= j < i
      ensures !KeyBefore(held, key, w, ranked[j])
    {
      assert j < i - 1 ==> InRankOrder(held, key, before, ranked[j], ranked[i - 1]);
    }
  }

  lemma RankedPair(ranked: seq<Wtxid>, w: Wtxid, i: nat, held: set<Wtxid>, key: Wtxid -> int, before: map<Wtxid, nat>,
                   pos: map<Wtxid, nat>, j: nat, k: nat)
    requires Ranked(held, key, before, ranked) && (forall m :: 0 <= m < |ranked| ==> ranked[m] in before)
    requires i <= |ranked|
    requires Later(before, w, pos) && (forall m :: i <= m < |ranked| ==> KeyBefore(held, key, w, ranked[m]))
    requires forall m :: 0 <= m < i ==> !KeyBefore(held, key, w, ranked[m])
    requires j < k <= |ranked|
    ensures InRankOrder(held, key, pos, (ranked[..i] + [w] + ranked[i..])[j], (ranked[..i] + [w] + ranked[i..])[k])
  {
    if j != i && k != i {
      assert InRankOrder(held, key, before, ranked[if j < i then j else j - 1], ranked[if k < i then k else k - 1]);
    }
  }

  lemma RankedInserted(ranked: seq<Wtxid>, w: Wtxid, i: nat, held: set<Wtxid>, key: Wtxid -> int,
                       before: map<Wtxid, nat>, pos: map<Wtxid, nat>)
    requires Ranked(held, key, before, ranked) && before.Keys == Elements(ranked) && i <= |ranked|
    requires Later(before, w, pos)
    requires forall j :: i <= j < |ranked| ==> KeyBefore(held, key, w, ranked[j])
    requires i > 0 ==> !KeyBefore(held, key, w, ranked[i - 1])
    ensures Ranked(held, key, pos, ranked[..i] + [w] + ranked[i..])
    ensures Elements(ranked[..i] + [w] + ranked[i..]) == Elements(ranked) + {w}
  {
    var more := ranked[..i] + [w] + ranked[i..];
    MembersInserted(ranked, w, i);
    EachIsElement(ranked);
    NoneBefore(ranked, w, i, held, key, before);
    forall j, k | 0 <= j < k < |more|
      ensures InRankOrder(held, key, pos, more[j], more[k])
    {
      RankedPair(ranked, w, i, held, key, before, pos, j, k);
    }
  }
}
