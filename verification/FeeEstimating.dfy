/** The fee estimator: what it tracks of the mempool, in three horizons. */
module FeeEstimating {
  import opened BlockRecords
  import opened FeeBuckets
  import opened FeeScans
  import opened FeeStats
  import opened RowScans
  import opened TrackedCounts

  /** A feerate that the buckets reach. */
  predicate Reachable(fee: int, vsize: int, top: real) {
    0.0 <= FeePerK(fee, vsize) as real <= top
  }

  /** Not tracked yet, and accepted at the height of the last block seen. */
  predicate Accepted(txs: map<Txid, Entry>, best: nat, txid: Txid, height: nat) {
    txid !in txs && height == best
  }

  datatype Horizon = Short | Medium | Long

  const SUFFICIENT_FEETXS := 0.1
  const SUFFICIENT_TXS_SHORT := 0.5

  /** How many transactions each block a test needs on average. */
  function Sufficient(horizon: Horizon): (r: real)
    ensures r > 0.0
  {
    if horizon == Short then SUFFICIENT_TXS_SHORT else SUFFICIENT_FEETXS
  }

  /** The nearest integer, halves away from zero. */
  function Llround(value: real): (n: int)
    ensures value - 0.5 <= n as real <= value + 0.5
    ensures value >= 0.0 ==> n >= 0
  {
    var magnitude := if value < 0.0 then 0.0 - value else value;
    var whole := magnitude.Floor;
    var rounded := if magnitude - whole as real >= 0.5 then whole + 1 else whole;
    if value < 0.0 then 0 - rounded else rounded
  }

  /** What rounds between two values that are rounded is between them. */
  lemma LlroundGrows(a: real, b: real)
    requires a <= b
    ensures Llround(a) <= Llround(b)
  {
  }

  /** How many of `txs` had entered by `height`, in the buckets from `lo` up to
      `hi`. */
  ghost function EnteredBy(txs: map<Txid, Entry>, height: int, lo: nat, hi: nat): nat
    decreases if hi >= lo then hi - lo else 0
  {
    if lo >= hi then 0 else |UpTo(txs, height, lo)| + EnteredBy(txs, height, lo + 1, hi)
  }

  lemma {:induction false} WaitingSum(extra: seq<real>, txs: map<Txid, Entry>, height: int, lo: nat, hi: nat)
    requires hi <= |extra| && forall b :: 0 <= b < |extra| ==> extra[b] == |UpTo(txs, height, b)| as real
    ensures Sum(extra, lo, hi) == EnteredBy(txs, height, lo, hi) as real
    decreases if hi >= lo then hi - lo else 0
  {
    if lo < hi {
      WaitingSum(extra, txs, height, lo + 1, hi);
    }
  }

  lemma LowBoundNotNegative(bounds: seq<real>, b: nat)
    requires OrderedBounds(bounds) && b < |bounds|
    ensures LowBound(bounds, b) >= 0.0
  {
    assert b > 1 ==> Rises(bounds, 0, b - 1);
  }

  /** What an exact horizon's scan counts as still waiting. */
  lemma ExtrasAreWaiting(stats: TxConfirmStats, txs: map<Txid, Entry>, best: nat, target: nat)
    requires stats.Valid() && stats.Counts(txs, best) && 1 <= target <= stats.Bins() < U32 && best < U32
    requires NoRowWraps(best, stats.Bins(), target)
    ensures forall b :: 0 <= b < |stats.buckets.bounds| ==>
              stats.ScanRows(target, best).extra[b] == |UpTo(txs, best - target, b)| as real
  {
    forall b | 0 <= b < |stats.buckets.bounds|
      ensures stats.ScanRows(target, best).extra[b] == |UpTo(txs, best - target, b)| as real
    {
      ExtraIsWaiting(stats.unconfTxs, stats.oldUnconfTxs, stats.Bins(), |stats.buckets.bounds|, txs, best, b, target);
    }
  }

  class FeeEstimator {
    const feeStats: TxConfirmStats
    const shortStats: TxConfirmStats
    const longStats: TxConfirmStats
    var bestSeenHeight: nat
    var firstRecordedHeight: nat
    var mempoolTxs: map<Txid, Entry>
    var trackedTxs: nat
    var untrackedTxs: nat

    ghost predicate Separate() {
      && feeStats != shortStats && feeStats != longStats && shortStats != longStats
      && shortStats.buckets == feeStats.buckets && longStats.buckets == feeStats.buckets
    }

    ghost predicate Valid()
      reads this, feeStats, shortStats, longStats
    {
      && Separate() && feeStats.Valid() && shortStats.Valid() && longStats.Valid()
      && forall t :: t in mempoolTxs ==> mempoolTxs[t].bucket < |feeStats.buckets.bounds|
    }

    /** Every horizon counts exactly what is tracked. */
    ghost predicate Exact()
      reads this, feeStats, shortStats, longStats
    {
      && feeStats.Counts(mempoolTxs, bestSeenHeight) && shortStats.Counts(mempoolTxs, bestSeenHeight)
      && longStats.Counts(mempoolTxs, bestSeenHeight)
    }

    /** In every horizon, average feerates are within their buckets. */
    ghost predicate InBounds()
      reads this, feeStats, shortStats, longStats
    {
      feeStats.InBounds() && shortStats.InBounds() && longStats.InBounds()
    }

    /** Some horizon counts more than is tracked. */
    ghost predicate Overcounting()
      requires Valid()
      reads this, feeStats, shortStats, longStats
    {
      || feeStats.TooMany(mempoolTxs, bestSeenHeight) || shortStats.TooMany(mempoolTxs, bestSeenHeight)
      || longStats.TooMany(mempoolTxs, bestSeenHeight)
    }

    /** Starts empty, with no file. */
    constructor (buckets: Buckets)
      requires ValidBuckets(buckets) && OrderedBounds(buckets.bounds)
      ensures Valid() && Exact() && InBounds() && mempoolTxs == map[] && bestSeenHeight == 0
      ensures fresh(feeStats) && fresh(shortStats) && fresh(longStats)
      ensures shortStats.Bins() == 12 && feeStats.Bins() == 48 && longStats.Bins() == 1008
    {
      feeStats := new TxConfirmStats(buckets, 24, 0.9952, 2);
      shortStats := new TxConfirmStats(buckets, 12, 0.962, 1);
      longStats := new TxConfirmStats(buckets, 42, 0.99931, 24);
      bestSeenHeight, firstRecordedHeight, mempoolTxs, trackedTxs, untrackedTxs := 0, 0, map[], 0, 0;
    }

    function Stats(horizon: Horizon): TxConfirmStats {
      match horizon
      case Short => shortStats
      case Medium => feeStats
      case Long => longStats
    }

    /** A horizon can be asked for the target. */
    ghost predicate Asked(confTarget: int, success: real, horizon: Horizon) {
      1 <= confTarget <= Stats(horizon).Bins() && success <= 1.0
    }

    /** One horizon's estimate, or 0 for none: the rounded feerate of the lowest
        range that passes, between its bounds. What the range is reported to have
        in the mempool are exactly the tracked transactions of its buckets that
        have waited at least the target, where the horizon counts what is tracked. */
    method EstimateRawFee(confTarget: int, success: real, horizon: Horizon)
      returns (fee: int, pass: EstimatorBucket, fail: EstimatorBucket)
      requires Valid()
      ensures !Asked(confTarget, success, horizon) ==> fee == 0 && pass == NO_RANGE && fail == NO_RANGE
      ensures Asked(confTarget, success, horizon) ==>
                EstimatedBy(Stats(horizon), confTarget, Sufficient(horizon), success, fee, pass, fail)
      ensures Asked(confTarget, success, horizon) ==>
                WaitingIsExact(Stats(horizon), confTarget, Sufficient(horizon), success, pass)
    {
      var stats := Stats(horizon);
      var sufficient := Sufficient(horizon);
      fee, pass, fail := 0, NO_RANGE, NO_RANGE;
      if confTarget <= 0 || confTarget > stats.scale * stats.periods {
        return;
      }
      if success > 1.0 {
        return;
      }
      var median;
      median, pass, fail := stats.EstimateMedianVal(confTarget, sufficient, success, bestSeenHeight);
      fee := if median < 0.0 then 0 else Llround(median);
      WaitingReported(stats, confTarget, sufficient, success, pass);
      if stats.Lowest(confTarget, sufficient, success, bestSeenHeight) < |stats.buckets.bounds| {
        LowBoundNotNegative(stats.buckets.bounds, stats.Lowest(confTarget, sufficient, success, bestSeenHeight));
        if stats.InBounds() {
          LlroundGrows(pass.start, median);
          LlroundGrows(median, pass.end);
        }
      }
    }

    /** The answer of a horizon at the last height seen, and what is reported. */
    ghost predicate EstimatedBy(stats: TxConfirmStats, target: nat, sufficient: real, success: real, fee: int,
                                pass: EstimatorBucket, fail: EstimatorBucket)
      requires stats.Valid() && 1 <= target <= stats.Bins() && sufficient > 0.0
      reads this, stats
    {
      var far := stats.Lowest(target, sufficient, success, bestSeenHeight);
      && Reported(stats.ScanRows(target, bestSeenHeight), |stats.buckets.bounds|, stats.buckets.bounds,
                  Need(sufficient, stats.decay), success, pass, fail)
      && (far == |stats.buckets.bounds| ==> fee == 0)
      && (far < |stats.buckets.bounds| ==>
            && (stats.InBounds() ==> Llround(pass.start) <= fee <= Llround(pass.end))
            && exists median :: fee == (if median < 0.0 then 0 else Llround(median))
                                && IsMedianFeerate(stats.txCtAvg, stats.feerateAvg, far,
                                                   stats.Highest(target, sufficient, success, bestSeenHeight), median))
    }

    /** Those reported to wait are exactly the tracked transactions of the range
        that do, where the horizon counts what is tracked and no row wraps. */
    ghost predicate WaitingIsExact(stats: TxConfirmStats, target: nat, sufficient: real, success: real,
                                   pass: EstimatorBucket)
      requires stats.Valid() && 1 <= target <= stats.Bins() && sufficient > 0.0
      reads this, stats
    {
      var far := stats.Lowest(target, sufficient, success, bestSeenHeight);
      far < |stats.buckets.bounds| && stats.Counts(mempoolTxs, bestSeenHeight) && bestSeenHeight < U32
      && stats.Bins() < U32 && NoRowWraps(bestSeenHeight, stats.Bins(), target) ==>
        pass.inMempool == EnteredBy(mempoolTxs, bestSeenHeight - target, far,
                                    stats.Highest(target, sufficient, success, bestSeenHeight) + 1) as real
    }

    lemma WaitingReported(stats: TxConfirmStats, target: nat, sufficient: real, success: real, pass: EstimatorBucket)
      requires stats.Valid() && 1 <= target <= stats.Bins() && sufficient > 0.0
      requires PassReported(stats.ScanRows(target, bestSeenHeight), |stats.buckets.bounds|, stats.buckets.bounds,
                            Need(sufficient, stats.decay), success,
                            stats.Lowest(target, sufficient, success, bestSeenHeight), pass)
      ensures WaitingIsExact(stats, target, sufficient, success, pass)
    {
      var far := stats.Lowest(target, sufficient, success, bestSeenHeight);
      if far < |stats.buckets.bounds| && stats.Counts(mempoolTxs, bestSeenHeight) && bestSeenHeight < U32
         && stats.Bins() < U32 && NoRowWraps(bestSeenHeight, stats.Bins(), target)
      {
        ExtrasAreWaiting(stats, mempoolTxs, bestSeenHeight, target);
        WaitingSum(stats.ScanRows(target, bestSeenHeight).extra, mempoolTxs, bestSeenHeight - target, far,
                   stats.Highest(target, sufficient, success, bestSeenHeight) + 1);
      }
    }

    /** Tracks a transaction that the mempool just accepted: only one that was
        accepted at the height of the last block seen, in the ordinary way. */
    method ProcessTransaction(txid: Txid, fee: int, vsize: int, height: nat, limitBypassed: bool, inPackage: bool,
                              chainCurrent: bool, hasNoMempoolParents: bool)
      requires Valid()
      modifies this, feeStats, shortStats, longStats
      ensures Valid() && bestSeenHeight == old(bestSeenHeight) && (old(Exact()) ==> Exact())
      ensures old(InBounds()) ==> InBounds()
      ensures Accepted(old(mempoolTxs), old(bestSeenHeight), txid, height) && !limitBypassed && !inPackage
              && chainCurrent
              && hasNoMempoolParents ==>
                && txid in mempoolTxs && mempoolTxs == old(mempoolTxs)[txid := mempoolTxs[txid]]
                && mempoolTxs[txid].height == height
                && IsBucketOf(feeStats.buckets.bounds, FeePerK(fee, vsize) as real, mempoolTxs[txid].bucket)
                && trackedTxs == old(trackedTxs) + 1 && untrackedTxs == old(untrackedTxs)
      ensures Accepted(old(mempoolTxs), old(bestSeenHeight), txid, height)
              && (limitBypassed || inPackage || !chainCurrent || !hasNoMempoolParents) ==>
                mempoolTxs == old(mempoolTxs) && trackedTxs == old(trackedTxs) && untrackedTxs == old(untrackedTxs) + 1
      ensures !Accepted(old(mempoolTxs), old(bestSeenHeight), txid, height) ==>
                mempoolTxs == old(mempoolTxs) && trackedTxs == old(trackedTxs) && untrackedTxs == old(untrackedTxs)
    {
      if txid in mempoolTxs {
        return;
      }
      if height != bestSeenHeight {
        return;
      }
      if limitBypassed || inPackage || !chainCurrent || !hasNoMempoolParents {
        untrackedTxs := untrackedTxs + 1;
        return;
      }
      trackedTxs := trackedTxs + 1;
      Track(txid, FeePerK(fee, vsize) as real);
    }

    method Track(txid: Txid, feerate: real)
      requires Valid() && txid !in mempoolTxs
      modifies `mempoolTxs, feeStats`unconfTxs, shortStats`unconfTxs, longStats`unconfTxs
      ensures Valid() && (old(Exact()) ==> Exact())
      ensures txid in mempoolTxs && mempoolTxs == old(mempoolTxs)[txid := mempoolTxs[txid]]
      ensures mempoolTxs[txid].height == bestSeenHeight
      ensures IsBucketOf(feeStats.buckets.bounds, feerate, mempoolTxs[txid].bucket)
    {
      var bucket := CountIn(feeStats, bestSeenHeight, feerate, mempoolTxs, txid);
      var bucket1 := CountIn(shortStats, bestSeenHeight, feerate, mempoolTxs, txid);
      OneBucket(feeStats.buckets.bounds, feerate, bucket, bucket1);
      var bucket2 := CountIn(longStats, bestSeenHeight, feerate, mempoolTxs, txid);
      OneBucket(feeStats.buckets.bounds, feerate, bucket, bucket2);
      mempoolTxs := mempoolTxs[txid := Entry(bestSeenHeight, bucket2)];
    }

    static method CountIn(stats: TxConfirmStats, best: nat, feerate: real, ghost txs: map<Txid, Entry>,
                          ghost txid: Txid)
      returns (bucket: nat)
      requires stats.Valid() && txid !in txs
      modifies stats`unconfTxs
      ensures stats.Valid() && IsBucketOf(stats.buckets.bounds, feerate, bucket)
      ensures old(stats.Counts(txs, best)) ==> stats.Counts(txs[txid := Entry(best, bucket)], best)
    {
      ghost var recent, old_, exact := stats.unconfTxs, stats.oldUnconfTxs, stats.Counts(txs, best);
      bucket := stats.NewTx(best, feerate);
      if exact {
        Entered(recent, old_, stats.Bins(), |stats.buckets.bounds|, txs, best, txid, bucket);
      }
    }

    ghost function Averaged(): Horizons
      reads this, feeStats, shortStats, longStats
    {
      Horizons(feeStats.Averaged(), shortStats.Averaged(), longStats.Averaged())
    }

    ghost function PeriodScales(): Scales {
      Scales(feeStats.scale, shortStats.scale, longStats.scale)
    }

    function Bounds(): seq<real> {
      feeStats.buckets.bounds
    }

    /** The highest bound. */
    function Top(): real
      requires Bounds() != []
    {
      Bounds()[|Bounds()| - 1]
    }

    /** Stops tracking a transaction; outside of a block it may count as a
        failure. */
    method RemoveTx(txid: Txid, inBlock: bool) returns (tracked: bool)
      requires Valid()
      modifies `mempoolTxs, feeStats, shortStats, longStats
      ensures Valid() && tracked == (txid in old(mempoolTxs)) && mempoolTxs == old(mempoolTxs) - {txid}
      ensures old(Exact()) ==> Exact()
      ensures old(Overcounting()) && bestSeenHeight > 0 ==> Overcounting()
      ensures old(InBounds()) ==> InBounds()
      ensures !tracked || inBlock ==> Averaged() == old(Averaged())
      ensures tracked && !inBlock ==>
                FailedInAll(old(Averaged()), PeriodScales(), old(mempoolTxs)[txid], bestSeenHeight, Averaged())
    {
      if txid !in mempoolTxs {
        assert mempoolTxs - {txid} == mempoolTxs;
        return false;
      }
      var entry := mempoolTxs[txid];
      ghost var txs := mempoolTxs;
      mempoolTxs := mempoolTxs - {txid};
      Forget(feeStats, entry, bestSeenHeight, inBlock, txs, txid);
      Forget(shortStats, entry, bestSeenHeight, inBlock, txs, txid);
      Forget(longStats, entry, bestSeenHeight, inBlock, txs, txid);
      tracked := true;
    }

    static method Forget(stats: TxConfirmStats, e: Entry, best: nat, inBlock: bool, ghost txs: map<Txid, Entry>,
                         ghost t: Txid)
      requires stats.Valid() && t in txs && txs[t] == e && e.bucket < |stats.buckets.bounds|
      modifies stats`unconfTxs, stats`oldUnconfTxs, stats`failAvg
      ensures stats.Valid() && (old(stats.Counts(txs, best)) ==> stats.Counts(txs - {t}, best))
      ensures old(stats.TooMany(txs, best)) && best > 0 ==> stats.TooMany(txs - {t}, best)
      ensures if inBlock then stats.failAvg == old(stats.failAvg)
              else Failed(old(stats.Averaged()), stats.scale, e, best, stats.Averaged())
    {
      ghost var recent, many := stats.unconfTxs, stats.TooMany(txs, best);
      stats.RemoveTx(e.height, best, e.bucket, inBlock, txs, t);
      if many && best > 0 {
        StillOvercounts(recent, stats.Bins(), |stats.buckets.bounds|, txs, best, t, stats.unconfTxs);
      }
    }

    /** A transaction that a block took out. */
    method ProcessBlockTx(height: nat, tx: RemovedTx) returns (counted: bool)
      requires Valid()
      modifies `mempoolTxs, feeStats, shortStats, longStats
      ensures Valid() && mempoolTxs == old(mempoolTxs) - {tx.txid}
      ensures old(Exact()) ==> Exact()
      ensures old(Overcounting()) && bestSeenHeight > 0 ==> Overcounting()
      ensures old(InBounds()) && Reachable(tx.fee, tx.vsize, Top()) ==> InBounds()
      ensures counted == (tx.txid in old(mempoolTxs) && height > tx.height)
      ensures if counted
              then OneMoreInAll(old(Averaged()), PeriodScales(), height - tx.height, RateOfTx(tx), Bounds(), Averaged())
              else Averaged() == old(Averaged())
    {
      var tracked := RemoveTx(tx.txid, true);
      if !tracked {
        return false;
      }
      var blocksToConfirm := height - tx.height;
      if blocksToConfirm <= 0 {
        return false;
      }
      RecordAll(blocksToConfirm, FeePerK(tx.fee, tx.vsize) as real,
                InBounds() && Reachable(tx.fee, tx.vsize, Top()));
      counted := true;
    }

    method RecordAll(blocks: nat, feerate: real, ghost within: bool)
      requires Valid() && blocks > 0 && (within ==> InBounds() && 0.0 <= feerate <= Top())
      modifies feeStats`confAvg, feeStats`txCtAvg, feeStats`feerateAvg
      modifies shortStats`confAvg, shortStats`txCtAvg, shortStats`feerateAvg
      modifies longStats`confAvg, longStats`txCtAvg, longStats`feerateAvg
      ensures Valid() && (within ==> InBounds())
      ensures OneMoreInAll(old(Averaged()), PeriodScales(), blocks, feerate, Bounds(), Averaged())
    {
      RecordIn(feeStats, blocks, feerate, within);
      RecordIn(shortStats, blocks, feerate, within);
      RecordIn(longStats, blocks, feerate, within);
    }

    static method RecordIn(stats: TxConfirmStats, blocks: nat, feerate: real, ghost within: bool)
      requires stats.Valid() && blocks > 0 && (within ==> stats.Reaches(feerate))
      modifies stats`confAvg, stats`txCtAvg, stats`feerateAvg
      ensures stats.Valid()
      ensures OneMore(old(stats.Averaged()), stats.scale, blocks, feerate, stats.buckets.bounds, stats.Averaged())
      ensures within ==> stats.InBounds()
    {
      ghost var a := stats.Averaged();
      ghost var bucket := stats.Record(blocks, feerate);
      assert OneRecorded(a, stats.scale, blocks, feerate, stats.buckets.bounds, bucket, stats.Averaged());
    }

    /** Nothing is forgotten that falls out of a horizon with a block at
        `height`. */
    ghost predicate NothingForgotten(height: nat)
      requires Valid()
      reads this, feeStats, shortStats, longStats
    {
      && OnlyRowFallsOut(mempoolTxs, bestSeenHeight, height, feeStats.Bins())
      && OnlyRowFallsOut(mempoolTxs, bestSeenHeight, height, shortStats.Bins())
      && OnlyRowFallsOut(mempoolTxs, bestSeenHeight, height, longStats.Bins())
    }

    lemma NextForgetsNothing(height: nat)
      requires Valid() && height <= bestSeenHeight + 1
      ensures height == bestSeenHeight + 1 ==> NothingForgotten(height)
    {
      NextHeightFallsOut(mempoolTxs, bestSeenHeight, feeStats.Bins());
      NextHeightFallsOut(mempoolTxs, bestSeenHeight, shortStats.Bins());
      NextHeightFallsOut(mempoolTxs, bestSeenHeight, longStats.Bins());
    }

    /** Records a block that took `removed` out of the mempool. Where no height
        is skipped, or only ones at which nothing was tracked that now falls out
        of a horizon, every horizon still counts exactly what is tracked; and
        only there. The averages decay, and then have the transactions of the
        block that were tracked and entered below it. */
    method ProcessBlock(removed: seq<RemovedTx>, height: nat)
      requires Valid()
      modifies this, feeStats, shortStats, longStats
      ensures Valid()
      ensures old(Exact()) ==> (Exact() <==> old(height <= bestSeenHeight + 1 || NothingForgotten(height)))
      ensures old(InBounds()) && AllReachable(removed) ==> InBounds()
      ensures height <= old(bestSeenHeight) ==>
                mempoolTxs == old(mempoolTxs) && bestSeenHeight == old(bestSeenHeight) && Averaged() == old(Averaged())
      ensures height > old(bestSeenHeight) ==>
                && bestSeenHeight == height && trackedTxs == 0 && untrackedTxs == 0
                && mempoolTxs == old(mempoolTxs) - TxidsOf(removed)
                && RecordedInAll(old(DecayedOnce()), removed, |removed|, old(mempoolTxs).Keys, height, Bounds(),
                                 PeriodScales(), Averaged())
    {
      if height <= bestSeenHeight {
        return;
      }
      if height == bestSeenHeight + 1 {
        NextForgetsNothing(height);
      }
      RollAll(height);
      DecayAll();
      var counted := ProcessRemoved(removed, height);
      NeverBoth();
      EndBlock(counted > 0);
    }

    method EndBlock(counted: bool)
      modifies `firstRecordedHeight, `trackedTxs, `untrackedTxs
      ensures trackedTxs == 0 && untrackedTxs == 0
      ensures firstRecordedHeight
           == if old(firstRecordedHeight) == 0 && counted then bestSeenHeight else old(firstRecordedHeight)
    {
      if firstRecordedHeight == 0 && counted {
        firstRecordedHeight := bestSeenHeight;
      }
      trackedTxs, untrackedTxs := 0, 0;
    }

    ghost function DecayedOnce(): Horizons
      reads this, feeStats, shortStats, longStats
    {
      DecayedAll(Averaged(), feeStats.decay, shortStats.decay, longStats.decay)
    }

    ghost predicate AllReachable(removed: seq<RemovedTx>)
      requires Bounds() != []
    {
      forall i :: 0 <= i < |removed| ==> Reachable(removed[i].fee, removed[i].vsize, Top())
    }

    lemma NeverBoth()
      requires Valid()
      ensures !(Exact() && Overcounting())
    {
      NotBothIn(feeStats, mempoolTxs, bestSeenHeight);
      NotBothIn(shortStats, mempoolTxs, bestSeenHeight);
      NotBothIn(longStats, mempoolTxs, bestSeenHeight);
    }

    static lemma NotBothIn(stats: TxConfirmStats, txs: map<Txid, Entry>, best: nat)
      requires stats.Valid()
      ensures !(stats.Counts(txs, best) && stats.TooMany(txs, best))
    {
      if stats.TooMany(txs, best) {
        OvercountsIsWrong(stats.unconfTxs, stats.oldUnconfTxs, stats.Bins(), |stats.buckets.bounds|, txs, best);
      }
    }

    method ProcessRemoved(removed: seq<RemovedTx>, height: nat) returns (counted: nat)
      requires Valid()
      modifies `mempoolTxs, feeStats, shortStats, longStats
      ensures Valid() && mempoolTxs == old(mempoolTxs) - TxidsOf(removed)
      ensures old(Exact()) ==> Exact()
      ensures old(Overcounting()) && bestSeenHeight > 0 ==> Overcounting()
      ensures old(InBounds()) && AllReachable(removed) ==> InBounds()
      ensures RecordedInAll(old(Averaged()), removed, |removed|, old(mempoolTxs).Keys, height, Bounds(),
                            PeriodScales(), Averaged())
    {
      ghost var txs, h, exact, many := mempoolTxs, Averaged(), Exact(), Overcounting();
      ghost var within := InBounds() && AllReachable(removed);
      counted := 0;
      assert mempoolTxs == txs - TxidsOf(removed[..0]);
      NothingInAll(h, removed, txs.Keys, height, Bounds(), PeriodScales());
      for i := 0 to |removed|
        invariant Valid() && Holding(exact, many, within)
        invariant RecordedSoFar(removed, i, height, txs, h)
      {
        var one := ProcessNext(removed, i, height, txs, h, exact, many, within);
        counted := counted + if one then 1 else 0;
      }
      assert removed[..|removed|] == removed;
    }

    /** What a transaction of a block keeps. */
    ghost predicate Holding(exact: bool, many: bool, within: bool)
      requires Valid()
      reads this, feeStats, shortStats, longStats
    {
      (exact ==> Exact()) && (many && bestSeenHeight > 0 ==> Overcounting()) && (within ==> InBounds())
    }

    /** The first `n` transactions of a block are out, and recorded. */
    ghost predicate RecordedSoFar(removed: seq<RemovedTx>, n: nat, height: nat, txs: map<Txid, Entry>, h: Horizons)
      requires n <= |removed|
      reads this, feeStats, shortStats, longStats
    {
      && mempoolTxs == txs - TxidsOf(removed[..n])
      && RecordedInAll(h, removed, n, txs.Keys, height, Bounds(), PeriodScales(), Averaged())
    }

    method ProcessNext(removed: seq<RemovedTx>, i: nat, height: nat, ghost txs: map<Txid, Entry>, ghost h: Horizons,
                       ghost exact: bool, ghost many: bool, ghost within: bool)
      returns (one: bool)
      requires Valid() && Holding(exact, many, within) && i < |removed| && (within ==> AllReachable(removed))
      requires RecordedSoFar(removed, i, height, txs, h)
      modifies `mempoolTxs, feeStats, shortStats, longStats
      ensures Valid() && Holding(exact, many, within) && RecordedSoFar(removed, i + 1, height, txs, h)
    {
      TxidsMore(removed, i);
      ghost var h' := Averaged();
      one := ProcessBlockTx(height, removed[i]);
      assert one == Counted(removed, txs.Keys, height, i);
      NextInAll(h, removed, i, txs.Keys, height, Bounds(), PeriodScales(), h', Averaged());
    }

    method RollAll(height: nat)
      requires Valid() && height > bestSeenHeight
      modifies `bestSeenHeight, feeStats, shortStats, longStats
      ensures Valid() && bestSeenHeight == height
      ensures old(Exact()) ==> if old(NothingForgotten(height)) then Exact() else Overcounting()
      ensures Averaged() == old(Averaged())
    {
      ghost var best := bestSeenHeight;
      bestSeenHeight := height;
      Roll(feeStats, height, mempoolTxs, best);
      Roll(shortStats, height, mempoolTxs, best);
      Roll(longStats, height, mempoolTxs, best);
    }

    static method Roll(stats: TxConfirmStats, height: nat, ghost txs: map<Txid, Entry>, ghost best: nat)
      requires stats.Valid() && height > best
      modifies stats`unconfTxs, stats`oldUnconfTxs
      ensures stats.Valid()
      ensures old(stats.Counts(txs, best)) ==>
                if OnlyRowFallsOut(txs, best, height, stats.Bins()) then stats.Counts(txs, height)
                else stats.TooMany(txs, height)
    {
      if stats.Counts(txs, best) {
        RolledIff(stats.unconfTxs, stats.oldUnconfTxs, stats.Bins(), |stats.buckets.bounds|, txs, best, height);
        if !OnlyRowFallsOut(txs, best, height, stats.Bins()) {
          LostIsOvercounted(stats.unconfTxs, stats.oldUnconfTxs, stats.Bins(), |stats.buckets.bounds|, txs, best,
                            height);
        }
      }
      stats.ClearCurrent(height);
    }

    method DecayAll()
      requires Valid()
      modifies feeStats, shortStats, longStats
      ensures Valid() && (old(Exact()) ==> Exact()) && (old(Overcounting()) ==> Overcounting())
      ensures old(InBounds()) ==> InBounds()
      ensures Averaged() == old(DecayedOnce())
    {
      Decay(feeStats);
      Decay(shortStats);
      Decay(longStats);
    }

    static method Decay(stats: TxConfirmStats)
      requires stats.Valid()
      modifies stats`confAvg, stats`failAvg, stats`txCtAvg, stats`feerateAvg
      ensures stats.Valid() && (old(stats.InBounds()) ==> stats.InBounds())
      ensures stats.Averaged() == Decayed(old(stats.Averaged()), stats.decay)
    {
      ghost var a := stats.Averaged();
      stats.UpdateMovingAverages();
      assert stats.confAvg == Decayed(a, stats.decay).conf;
      assert stats.failAvg == Decayed(a, stats.decay).fail;
    }
  }
}
