/** What a block adds to the averages of a horizon. */
module BlockRecords {
  import opened FeeBuckets
  import opened FeeStats
  import opened TrackedCounts

  /** A transaction that a block took out of the mempool. */
  datatype RemovedTx = RemovedTx(txid: Txid, fee: int, vsize: int, height: nat)

  /** The fee of 1000 virtual bytes, rounded down. */
  function FeePerK(fee: int, vsize: int): int {
    if vsize > 0 then fee * 1000 / vsize else 0
  }

  ghost function RateOfTx(tx: RemovedTx): real {
    FeePerK(tx.fee, tx.vsize) as real
  }

  ghost function TxidsOf(removed: seq<RemovedTx>): set<Txid> {
    set i | 0 <= i < |removed| :: removed[i].txid
  }

  lemma TxidsMore(removed: seq<RemovedTx>, i: nat)
    requires i < |removed|
    ensures TxidsOf(removed[..i + 1]) == TxidsOf(removed[..i]) + {removed[i].txid}
  {
    var less, more := removed[..i], removed[..i + 1];
    assert more[i] == removed[i];
    forall k | 0 <= k < i
      ensures more[k] == less[k]
    {
    }
    forall t | t in TxidsOf(less)
      ensures t in TxidsOf(more)
    {
      var k :| 0 <= k < |less| && less[k].txid == t;
      assert more[k].txid == t;
    }
  }

  /** The `i`-th of the transactions of a block counts: it was tracked, it was
      not among those before it, and it entered below the height of the block. */
  ghost predicate Counted(removed: seq<RemovedTx>, tracked: set<Txid>, height: nat, i: nat)
    requires i < |removed|
  {
    removed[i].txid in tracked - TxidsOf(removed[..i]) && height > removed[i].height
  }

  /** Those of the first `n` that count, are in the bucket `b`, and waited at most
      so many blocks. */
  ghost function Confirmed(removed: seq<RemovedTx>, n: nat, tracked: set<Txid>, height: nat, bounds: seq<real>, b: nat,
                           blocks: int): set<nat>
    requires n <= |removed|
  {
    set i: nat | i < n && Counted(removed, tracked, height, i) && IsBucketOf(bounds, RateOfTx(removed[i]), b)
                 && height - removed[i].height <= blocks
  }

  /** The sum of the feerates of those that count, in the bucket `b`. */
  ghost function RateSum(removed: seq<RemovedTx>, n: nat, tracked: set<Txid>, height: nat, bounds: seq<real>, b: nat):
    real
    requires n <= |removed|
  {
    if n == 0 then 0.0
    else RateSum(removed, n - 1, tracked, height, bounds, b)
         + if Counted(removed, tracked, height, n - 1) && IsBucketOf(bounds, RateOfTx(removed[n - 1]), b)
           then RateOfTx(removed[n - 1]) else 0.0
  }

  /** The averages `a'` are `a`, and the first `n` of the transactions of a block
      that count: each in its bucket, in each row whose periods are enough. */
  ghost predicate Recorded(a: Averages, removed: seq<RemovedTx>, n: nat, tracked: set<Txid>, height: nat,
                           bounds: seq<real>, scale: nat, a': Averages)
    requires n <= |removed|
  {
    && a'.fail == a.fail
    && |a'.ct| == |a.ct| && |a'.rate| == |a.rate| && |a'.conf| == |a.conf|
    && (forall b: nat :: b < |a.ct| ==>
          a'.ct[b] == a.ct[b] + |Confirmed(removed, n, tracked, height, bounds, b, height)| as real)
    && (forall b: nat :: b < |a.rate| ==>
          a'.rate[b] == a.rate[b] + RateSum(removed, n, tracked, height, bounds, b))
    && forall p: nat :: p < |a.conf| ==> RowRecorded(a, removed, n, tracked, height, bounds, scale, a', p)
  }

  ghost predicate RowRecorded(a: Averages, removed: seq<RemovedTx>, n: nat, tracked: set<Txid>, height: nat,
                              bounds: seq<real>, scale: nat, a': Averages, p: nat)
    requires n <= |removed| && p < |a.conf| == |a'.conf|
  {
    && |a'.conf[p]| == |a.conf[p]|
    && forall b: nat :: b < |a.conf[p]| ==>
         a'.conf[p][b]
         == a.conf[p][b] + |Confirmed(removed, n, tracked, height, bounds, b, scale * (p + 1))| as real
  }

  lemma NothingRecorded(a: Averages, removed: seq<RemovedTx>, tracked: set<Txid>, height: nat, bounds: seq<real>,
                        scale: nat)
    ensures Recorded(a, removed, 0, tracked, height, bounds, scale, a)
  {
    forall b: nat, blocks: int
      ensures Confirmed(removed, 0, tracked, height, bounds, b, blocks) == {}
    {
    }
  }

  /** One transaction more. */
  lemma ConfirmedMore(removed: seq<RemovedTx>, n: nat, tracked: set<Txid>, height: nat, bounds: seq<real>, b: nat,
                      blocks: int)
    requires n < |removed|
    ensures |Confirmed(removed, n + 1, tracked, height, bounds, b, blocks)|
         == |Confirmed(removed, n, tracked, height, bounds, b, blocks)|
            + if Counted(removed, tracked, height, n) && IsBucketOf(bounds, RateOfTx(removed[n]), b)
                 && height - removed[n].height <= blocks then 1 else 0
  {
    var less, more := Confirmed(removed, n, tracked, height, bounds, b, blocks),
      Confirmed(removed, n + 1, tracked, height, bounds, b, blocks);
    ConfirmedIs(removed, n, tracked, height, bounds, b, blocks);
    if n in more {
      assert n !in less && |less + {n}| == |less| + 1;
    }
  }

  lemma ConfirmedIs(removed: seq<RemovedTx>, n: nat, tracked: set<Txid>, height: nat, bounds: seq<real>, b: nat,
                    blocks: int)
    requires n < |removed|
    ensures var less, more := Confirmed(removed, n, tracked, height, bounds, b, blocks),
              Confirmed(removed, n + 1, tracked, height, bounds, b, blocks);
            more == if n in more then less + {n} else less
  {
    var less, more := Confirmed(removed, n, tracked, height, bounds, b, blocks),
      Confirmed(removed, n + 1, tracked, height, bounds, b, blocks);
    forall i: nat | i != n
      ensures i in more <==> i in less
    {
    }
  }

  /** A transaction that does not count changes nothing. */
  lemma SkippedStep(a: Averages, removed: seq<RemovedTx>, n: nat, tracked: set<Txid>, height: nat, bounds: seq<real>,
                    scale: nat, a': Averages)
    requires n < |removed| && Recorded(a, removed, n, tracked, height, bounds, scale, a')
    requires !Counted(removed, tracked, height, n)
    ensures Recorded(a, removed, n + 1, tracked, height, bounds, scale, a')
  {
    forall b: nat, blocks: int
      ensures Confirmed(removed, n + 1, tracked, height, bounds, b, blocks)
           == Confirmed(removed, n, tracked, height, bounds, b, blocks)
    {
    }
    var m := n + 1;
    forall p: nat | p < |a.conf|
      ensures RowRecorded(a, removed, m, tracked, height, bounds, scale, a', p)
    {
      assert RowRecorded(a, removed, n, tracked, height, bounds, scale, a', p);
    }
  }

  /** The averages with one transaction more, of so many blocks, in a bucket. */
  ghost predicate OneRecorded(a: Averages, scale: nat, blocks: int, feerate: real, bounds: seq<real>, bucket: nat,
                              a': Averages)
  {
    && IsBucketOf(bounds, feerate, bucket) && bucket < |a.ct| && bucket < |a.rate|
    && a'.fail == a.fail && a'.ct == a.ct[bucket := a.ct[bucket] + 1.0]
    && a'.rate == a.rate[bucket := a.rate[bucket] + feerate] && CountedWithin(a.conf, scale, blocks, bucket, a'.conf)
  }

  lemma RecordedStep(a: Averages, removed: seq<RemovedTx>, n: nat, tracked: set<Txid>, height: nat, bounds: seq<real>,
                     scale: nat, a': Averages, bucket: nat, a'': Averages)
    requires n < |removed| && Recorded(a, removed, n, tracked, height, bounds, scale, a')
    requires Counted(removed, tracked, height, n)
    requires OneRecorded(a', scale, height - removed[n].height, RateOfTx(removed[n]), bounds, bucket, a'')
    ensures Recorded(a, removed, n + 1, tracked, height, bounds, scale, a'')
  {
    forall b: nat | b < |a.ct|
      ensures a''.ct[b] == a.ct[b] + |Confirmed(removed, n + 1, tracked, height, bounds, b, height)| as real
    {
      OnlyBucket(bounds, RateOfTx(removed[n]), bucket, b);
      ConfirmedMore(removed, n, tracked, height, bounds, b, height);
    }
    forall b: nat | b < |a.rate|
      ensures a''.rate[b] == a.rate[b] + RateSum(removed, n + 1, tracked, height, bounds, b)
    {
      OnlyBucket(bounds, RateOfTx(removed[n]), bucket, b);
    }
    var m := n + 1;
    forall p: nat | p < |a.conf|
      ensures RowRecorded(a, removed, m, tracked, height, bounds, scale, a'', p)
    {
      RowStep(a, removed, n, tracked, height, bounds, scale, a', bucket, a'', p);
    }
  }

  lemma RowStep(a: Averages, removed: seq<RemovedTx>, n: nat, tracked: set<Txid>, height: nat, bounds: seq<real>,
                scale: nat, a': Averages, bucket: nat, a'': Averages, p: nat)
    requires n < |removed| && p < |a.conf| == |a'.conf| == |a''.conf|
    requires RowRecorded(a, removed, n, tracked, height, bounds, scale, a', p)
    requires Counted(removed, tracked, height, n)
    requires OneRecorded(a', scale, height - removed[n].height, RateOfTx(removed[n]), bounds, bucket, a'')
    ensures RowRecorded(a, removed, n + 1, tracked, height, bounds, scale, a'', p)
  {
    forall b: nat | b < |a.conf[p]|
      ensures a''.conf[p][b]
           == a.conf[p][b] + |Confirmed(removed, n + 1, tracked, height, bounds, b, scale * (p + 1))| as real
    {
      OnlyBucket(bounds, RateOfTx(removed[n]), bucket, b);
      ConfirmedMore(removed, n, tracked, height, bounds, b, scale * (p + 1));
    }
  }

  lemma OnlyBucket(bounds: seq<real>, feerate: real, bucket: nat, b: nat)
    requires IsBucketOf(bounds, feerate, bucket)
    ensures IsBucketOf(bounds, feerate, b) <==> b == bucket
  {
    if IsBucketOf(bounds, feerate, b) {
      OneBucket(bounds, feerate, b, bucket);
    }
  }

  // --- all horizons ---

  /** The averages of the three horizons. */
  datatype Horizons = Horizons(medium: Averages, short: Averages, long: Averages)

  /** And how many blocks their periods have. */
  datatype Scales = Scales(medium: nat, short: nat, long: nat)

  /** One more, of so many blocks, in the bucket of its feerate. */
  ghost predicate OneMore(a: Averages, scale: nat, blocks: int, feerate: real, bounds: seq<real>, a': Averages) {
    exists bucket: nat :: OneRecorded(a, scale, blocks, feerate, bounds, bucket, a')
  }

  /** A transaction left that was not mined: one failure more in each of the
      periods that it waited out. */
  ghost predicate Failed(a: Averages, scale: nat, e: Entry, best: nat, a': Averages) {
    var ago := TxConfirmStats.BlocksAgo(e.height, best);
    && a' == a.(fail := a'.fail)
    && if ago < 0 then a'.fail == a.fail else CountedAfter(a.fail, scale, ago, e.bucket, a'.fail)
  }

  ghost predicate FailedInAll(h: Horizons, k: Scales, e: Entry, best: nat, h': Horizons) {
    && Failed(h.medium, k.medium, e, best, h'.medium) && Failed(h.short, k.short, e, best, h'.short)
    && Failed(h.long, k.long, e, best, h'.long)
  }

  ghost predicate OneMoreInAll(h: Horizons, k: Scales, blocks: int, feerate: real, bounds: seq<real>, h': Horizons) {
    && OneMore(h.medium, k.medium, blocks, feerate, bounds, h'.medium)
    && OneMore(h.short, k.short, blocks, feerate, bounds, h'.short)
    && OneMore(h.long, k.long, blocks, feerate, bounds, h'.long)
  }

  ghost predicate RecordedInAll(h: Horizons, removed: seq<RemovedTx>, n: nat, tracked: set<Txid>, height: nat,
                                bounds: seq<real>, k: Scales, h': Horizons)
    requires n <= |removed|
  {
    && Recorded(h.medium, removed, n, tracked, height, bounds, k.medium, h'.medium)
    && Recorded(h.short, removed, n, tracked, height, bounds, k.short, h'.short)
    && Recorded(h.long, removed, n, tracked, height, bounds, k.long, h'.long)
  }

  ghost function DecayedAll(h: Horizons, medium: real, short: real, long: real): Horizons {
    Horizons(Decayed(h.medium, medium), Decayed(h.short, short), Decayed(h.long, long))
  }

  lemma NothingInAll(h: Horizons, removed: seq<RemovedTx>, tracked: set<Txid>, height: nat, bounds: seq<real>,
                     k: Scales)
    ensures RecordedInAll(h, removed, 0, tracked, height, bounds, k, h)
  {
    NothingRecorded(h.medium, removed, tracked, height, bounds, k.medium);
    NothingRecorded(h.short, removed, tracked, height, bounds, k.short);
    NothingRecorded(h.long, removed, tracked, height, bounds, k.long);
  }

  lemma NextRecorded(a: Averages, removed: seq<RemovedTx>, n: nat, tracked: set<Txid>, height: nat, bounds: seq<real>,
                     scale: nat, a': Averages, a'': Averages)
    requires n < |removed| && Recorded(a, removed, n, tracked, height, bounds, scale, a')
    requires if Counted(removed, tracked, height, n)
             then OneMore(a', scale, height - removed[n].height, RateOfTx(removed[n]), bounds, a'') else a'' == a'
    ensures Recorded(a, removed, n + 1, tracked, height, bounds, scale, a'')
  {
    if Counted(removed, tracked, height, n) {
      var bucket: nat :| OneRecorded(a', scale, height - removed[n].height, RateOfTx(removed[n]), bounds, bucket, a'');
      RecordedStep(a, removed, n, tracked, height, bounds, scale, a', bucket, a'');
    } else {
      SkippedStep(a, removed, n, tracked, height, bounds, scale, a');
    }
  }

  lemma NextInAll(h: Horizons, removed: seq<RemovedTx>, n: nat, tracked: set<Txid>, height: nat, bounds: seq<real>,
                  k: Scales, h': Horizons, h'': Horizons)
    requires n < |removed| && RecordedInAll(h, removed, n, tracked, height, bounds, k, h')
    requires if Counted(removed, tracked, height, n)
             then OneMoreInAll(h', k, height - removed[n].height, RateOfTx(removed[n]), bounds, h'') else h'' == h'
    ensures RecordedInAll(h, removed, n + 1, tracked, height, bounds, k, h'')
  {
    NextRecorded(h.medium, removed, n, tracked, height, bounds, k.medium, h'.medium, h''.medium);
    NextRecorded(h.short, removed, n, tracked, height, bounds, k.short, h'.short, h''.short);
    NextRecorded(h.long, removed, n, tracked, height, bounds, k.long, h'.long, h''.long);
  }
}
