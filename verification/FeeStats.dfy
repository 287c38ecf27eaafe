/** One horizon's moving averages, and the transactions that are still waiting. */
module FeeStats {
  import opened FeeBuckets
  import opened FeeScans
  import opened RowScans
  import opened TrackedCounts

  ghost predicate Rises(bounds: seq<real>, i: nat, j: nat)
    requires i < |bounds| && j < |bounds|
  {
    bounds[i] < bounds[j]
  }

  /** Bounds that are not negative, each higher than the one before. */
  ghost predicate OrderedBounds(bounds: seq<real>) {
    && bounds != [] && bounds[0] >= 0.0
    && forall i, j {:trigger Rises(bounds, i, j)} :: 0 <= i < j < |bounds| ==> Rises(bounds, i, j)
  }

  lemma OrderedIncreasing(bounds: seq<real>)
    requires OrderedBounds(bounds)
    ensures Increasing(bounds)
  {
    forall i, j | 0 <= i < j < |bounds|
      ensures bounds[i] < bounds[j]
    {
      assert Rises(bounds, i, j);
    }
  }

  /** Rows of averages, by period and bucket. */
  type Grid = seq<seq<real>>

  /** All averages of a horizon. */
  datatype Averages = Averages(conf: Grid, fail: Grid, ct: seq<real>, rate: seq<real>)

  ghost predicate IsGrid(g: Grid, rows: nat, columns: nat) {
    |g| == rows && forall i :: 0 <= i < rows ==> |g[i]| == columns
  }

  /** What the averages stand for: counts of the transactions of each bucket that
      were confirmed within so many periods, each within more periods than the
      one before, and of those that left after so many. */
  ghost predicate AveragesOk(conf: Grid, fail: Grid, ct: seq<real>, count: nat, periods: nat) {
    && IsGrid(conf, periods, count) && IsGrid(fail, periods, count) && |ct| == count
    && forall b :: 0 <= b < count ==> ColumnOk(conf, fail, ct, periods, b)
  }

  /** And the sums of their feerates, each within its bucket. */
  ghost predicate RatesOk(ct: seq<real>, rate: seq<real>, bounds: seq<real>) {
    && |ct| == |bounds| && |rate| == |bounds|
    && forall b :: 0 <= b < |bounds| ==> RateOk(ct[b], rate[b], bounds, b)
  }

  ghost predicate ColumnOk(conf: Grid, fail: Grid, ct: seq<real>, periods: nat, b: nat)
    requires b < |ct| && IsGrid(conf, periods, |ct|) && IsGrid(fail, periods, |ct|)
  {
    && ct[b] >= 0.0
    && (forall i :: 0 <= i < periods ==> 0.0 <= conf[i][b] <= ct[b] && fail[i][b] >= 0.0)
    && forall i, j :: 0 <= i < j < periods ==> conf[i][b] <= conf[j][b] && fail[j][b] <= fail[i][b]
  }

  ghost predicate RateOk(ct: real, rate: real, bounds: seq<real>, b: nat)
    requires b < |bounds|
  {
    LowBound(bounds, b) * ct <= rate <= bounds[b] * ct
  }

  function Scaled(s: seq<real>, d: real): (r: seq<real>)
    ensures |r| == |s|
  {
    seq(|s|, i requires 0 <= i < |s| => s[i] * d)
  }

  lemma ScaledOrder(a: real, b: real, d: real)
    requires a <= b && d > 0.0
    ensures a * d <= b * d
  {
  }

  lemma ScaledRate(ct: real, rate: real, bounds: seq<real>, b: nat, d: real)
    requires b < |bounds| && RateOk(ct, rate, bounds, b) && d > 0.0
    ensures RateOk(ct * d, rate * d, bounds, b)
  {
    ScaledOrder(LowBound(bounds, b) * ct, rate, d);
    ScaledOrder(rate, bounds[b] * ct, d);
    assert LowBound(bounds, b) * (ct * d) == (LowBound(bounds, b) * ct) * d;
    assert bounds[b] * (ct * d) == (bounds[b] * ct) * d;
  }

  /** The averages, decayed by one block. */
  ghost function Decayed(a: Averages, d: real): Averages {
    Averages(seq(|a.conf|, i requires 0 <= i < |a.conf| => Scaled(a.conf[i], d)),
             seq(|a.fail|, i requires 0 <= i < |a.fail| => Scaled(a.fail[i], d)), Scaled(a.ct, d), Scaled(a.rate, d))
  }

  ghost predicate GridScaled(g: Grid, d: real, g': Grid) {
    |g'| == |g| && forall i :: 0 <= i < |g| ==> g'[i] == Scaled(g[i], d)
  }

  lemma ScaledAt(g: Grid, d: real, g': Grid, i: nat, b: nat)
    requires GridScaled(g, d, g') && i < |g| && b < |g[i]|
    ensures |g'[i]| == |g[i]| && g'[i][b] == g[i][b] * d
  {
  }

  lemma ScaledGrid(g: Grid, d: real, g': Grid, rows: nat, columns: nat)
    requires IsGrid(g, rows, columns) && GridScaled(g, d, g')
    ensures IsGrid(g', rows, columns)
  {
  }

  lemma ScaledCell(conf: Grid, fail: Grid, ct: seq<real>, periods: nat, b: nat, d: real, conf': Grid, fail': Grid,
                   i: nat)
    requires b < |ct| && IsGrid(conf, periods, |ct|) && IsGrid(fail, periods, |ct|)
    requires ColumnOk(conf, fail, ct, periods, b)
    requires d > 0.0 && GridScaled(conf, d, conf') && GridScaled(fail, d, fail') && i < periods
    ensures |conf'[i]| == |ct| && |fail'[i]| == |ct| && 0.0 <= conf'[i][b] <= ct[b] * d && fail'[i][b] >= 0.0
  {
    ScaledAt(conf, d, conf', i, b);
    ScaledAt(fail, d, fail', i, b);
    ScaledOrder(0.0, conf[i][b], d);
    ScaledOrder(conf[i][b], ct[b], d);
    ScaledOrder(0.0, fail[i][b], d);
  }

  lemma ScaledCells(conf: Grid, fail: Grid, ct: seq<real>, periods: nat, b: nat, d: real, conf': Grid, fail': Grid,
                    i: nat, j: nat)
    requires b < |ct| && IsGrid(conf, periods, |ct|) && IsGrid(fail, periods, |ct|)
    requires ColumnOk(conf, fail, ct, periods, b)
    requires d > 0.0 && GridScaled(conf, d, conf') && GridScaled(fail, d, fail') && i < j < periods
    ensures |conf'[i]| == |ct| && |conf'[j]| == |ct| && |fail'[i]| == |ct| && |fail'[j]| == |ct|
    ensures conf'[i][b] <= conf'[j][b] && fail'[j][b] <= fail'[i][b]
  {
    ScaledAt(conf, d, conf', i, b);
    ScaledAt(conf, d, conf', j, b);
    ScaledAt(fail, d, fail', i, b);
    ScaledAt(fail, d, fail', j, b);
    ScaledOrder(conf[i][b], conf[j][b], d);
    ScaledOrder(fail[j][b], fail[i][b], d);
  }

  lemma ScaledColumn(conf: Grid, fail: Grid, ct: seq<real>, periods: nat, b: nat, d: real, conf': Grid, fail': Grid)
    requires b < |ct| && IsGrid(conf, periods, |ct|) && IsGrid(fail, periods, |ct|)
    requires ColumnOk(conf, fail, ct, periods, b)
    requires d > 0.0 && GridScaled(conf, d, conf') && GridScaled(fail, d, fail')
    ensures IsGrid(conf', periods, |ct|) && IsGrid(fail', periods, |ct|)
    ensures ColumnOk(conf', fail', Scaled(ct, d), periods, b)
  {
    ScaledGrid(conf, d, conf', periods, |ct|);
    ScaledGrid(fail, d, fail', periods, |ct|);
    ScaledOrder(0.0, ct[b], d);
    forall i | 0 <= i < periods
      ensures 0.0 <= conf'[i][b] <= Scaled(ct, d)[b] && fail'[i][b] >= 0.0
    {
      ScaledCell(conf, fail, ct, periods, b, d, conf', fail', i);
    }
    forall i, j | 0 <= i < j < periods
      ensures conf'[i][b] <= conf'[j][b] && fail'[j][b] <= fail'[i][b]
    {
      ScaledCells(conf, fail, ct, periods, b, d, conf', fail', i, j);
    }
  }

  lemma ScaledAverages(conf: Grid, fail: Grid, ct: seq<real>, count: nat, periods: nat, d: real, conf': Grid,
                       fail': Grid)
    requires AveragesOk(conf, fail, ct, count, periods) && d > 0.0
    requires GridScaled(conf, d, conf') && GridScaled(fail, d, fail')
    ensures AveragesOk(conf', fail', Scaled(ct, d), count, periods)
  {
    ScaledGrid(conf, d, conf', periods, count);
    ScaledGrid(fail, d, fail', periods, count);
    forall b | 0 <= b < count
      ensures ColumnOk(conf', fail', Scaled(ct, d), periods, b)
    {
      ScaledColumn(conf, fail, ct, periods, b, d, conf', fail');
    }
  }

  lemma ScaledRates(ct: seq<real>, rate: seq<real>, bounds: seq<real>, d: real)
    requires RatesOk(ct, rate, bounds) && d > 0.0
    ensures RatesOk(Scaled(ct, d), Scaled(rate, d), bounds)
  {
    forall b | 0 <= b < |bounds|
      ensures RateOk(Scaled(ct, d)[b], Scaled(rate, d)[b], bounds, b)
    {
      ScaledRate(ct[b], rate[b], bounds, b, d);
    }
  }

  /** `g'` has one more in the bucket `b` of the rows from `lo` up to `hi`. */
  ghost predicate OneMoreIn(g: Grid, lo: int, hi: int, b: nat, g': Grid) {
    && |g'| == |g|
    && forall i :: 0 <= i < |g| ==> b < |g[i]| && g'[i] == if lo <= i < hi then g[i][b := g[i][b] + 1.0] else g[i]
  }

  lemma ConfirmedColumn(conf: Grid, fail: Grid, ct: seq<real>, periods: nat, lo: int, bucket: nat, conf': Grid, b: nat)
    requires b < |ct| && IsGrid(conf, periods, |ct|) && IsGrid(fail, periods, |ct|)
    requires ColumnOk(conf, fail, ct, periods, b)
    requires bucket < |ct| && OneMoreIn(conf, lo, periods, bucket, conf')
    ensures IsGrid(conf', periods, |ct|) && ColumnOk(conf', fail, ct[bucket := ct[bucket] + 1.0], periods, b)
  {
  }

  lemma FailedColumn(conf: Grid, fail: Grid, ct: seq<real>, periods: nat, hi: int, bucket: nat, fail': Grid, b: nat)
    requires b < |ct| && IsGrid(conf, periods, |ct|) && IsGrid(fail, periods, |ct|)
    requires ColumnOk(conf, fail, ct, periods, b)
    requires bucket < |ct| && OneMoreIn(fail, 0, hi, bucket, fail')
    ensures IsGrid(fail', periods, |ct|) && ColumnOk(conf, fail', ct, periods, b)
  {
  }

  lemma ConfirmedRate(ct: real, rate: real, bounds: seq<real>, b: nat, feerate: real)
    requires b < |bounds| && RateOk(ct, rate, bounds, b) && LowBound(bounds, b) <= feerate <= bounds[b]
    ensures RateOk(ct + 1.0, rate + feerate, bounds, b)
  {
    assert LowBound(bounds, b) * (ct + 1.0) == LowBound(bounds, b) * ct + LowBound(bounds, b);
    assert bounds[b] * (ct + 1.0) == bounds[b] * ct + bounds[b];
  }

  /** The bucket of a feerate holds it. */
  lemma BucketHolds(bounds: seq<real>, x: real, b: nat)
    requires OrderedBounds(bounds) && IsBucketOf(bounds, x, b) && 0.0 <= x <= bounds[|bounds| - 1]
    ensures LowBound(bounds, b) <= x <= bounds[b]
  {
    if b > 0 {
      assert Rises(bounds, b - 1, b);
    }
    if b < |bounds| - 1 {
      assert Rises(bounds, b, |bounds| - 1);
    }
  }

  lemma ConfirmedAverages(conf: Grid, fail: Grid, ct: seq<real>, count: nat, periods: nat, lo: int, bucket: nat,
                          conf': Grid)
    requires AveragesOk(conf, fail, ct, count, periods) && bucket < count && OneMoreIn(conf, lo, periods, bucket, conf')
    ensures AveragesOk(conf', fail, ct[bucket := ct[bucket] + 1.0], count, periods)
  {
    var ct' := ct[bucket := ct[bucket] + 1.0];
    forall b | 0 <= b < count
      ensures IsGrid(conf', periods, count) && ColumnOk(conf', fail, ct', periods, b)
    {
      ConfirmedColumn(conf, fail, ct, periods, lo, bucket, conf', b);
    }
  }

  lemma ConfirmedRates(ct: seq<real>, rate: seq<real>, bounds: seq<real>, bucket: nat, feerate: real)
    requires RatesOk(ct, rate, bounds) && bucket < |bounds|
    requires LowBound(bounds, bucket) <= feerate <= bounds[bucket]
    ensures RatesOk(ct[bucket := ct[bucket] + 1.0], rate[bucket := rate[bucket] + feerate], bounds)
  {
    var ct', rate' := ct[bucket := ct[bucket] + 1.0], rate[bucket := rate[bucket] + feerate];
    forall b | 0 <= b < |bounds|
      ensures RateOk(ct'[b], rate'[b], bounds, b)
    {
      assert RateOk(ct[b], rate[b], bounds, b);
      if b == bucket {
        ConfirmedRate(ct[b], rate[b], bounds, b, feerate);
      }
    }
  }

  lemma FailedAverages(conf: Grid, fail: Grid, ct: seq<real>, count: nat, periods: nat, hi: int, bucket: nat,
                       fail': Grid)
    requires AveragesOk(conf, fail, ct, count, periods) && bucket < count && OneMoreIn(fail, 0, hi, bucket, fail')
    ensures AveragesOk(conf, fail', ct, count, periods)
  {
    forall b | 0 <= b < count
      ensures IsGrid(fail', periods, count) && ColumnOk(conf, fail', ct, periods, b)
    {
      FailedColumn(conf, fail, ct, periods, hi, bucket, fail', b);
    }
  }

  /** How many transactions a test needs, of an average so many each block. */
  function Need(sufficient: real, decay: real): (n: real)
    requires sufficient > 0.0 && decay < 1.0
    ensures n > 0.0
  {
    QuotientPositive(sufficient, 1.0 - decay);
    sufficient / (1.0 - decay)
  }

  lemma QuotientPositive(a: real, b: real)
    requires a > 0.0 && b > 0.0
    ensures a / b > 0.0
  {
    var q := a / b;
    assert q * b == a;
    ProductPositive(0.0 - q, b);
    assert (0.0 - q) * b == 0.0 - q * b;
  }

  class TxConfirmStats {
    const buckets: Buckets
    const decay: real
    const scale: nat
    const periods: nat
    var confAvg: Grid
    var failAvg: Grid
    var txCtAvg: seq<real>
    var feerateAvg: seq<real>
    var unconfTxs: seq<seq<nat>>
    var oldUnconfTxs: seq<nat>

    ghost function Bins(): nat {
      scale * periods
    }

    ghost predicate Valid()
      reads this
    {
      && ValidBuckets(buckets) && OrderedBounds(buckets.bounds)
      && 0.0 < decay < 1.0 && scale > 0 && periods > 0 && Bins() > 0
      && AveragesOk(confAvg, failAvg, txCtAvg, |buckets.bounds|, periods) && |feerateAvg| == |buckets.bounds|
      && Shaped(unconfTxs, oldUnconfTxs, Bins(), |buckets.bounds|)
    }

    /** A feerate can be recorded that leaves all averages in bounds. */
    ghost predicate Reaches(feerate: real)
      requires Valid()
      reads this
    {
      InBounds() && 0.0 <= feerate <= buckets.bounds[|buckets.bounds| - 1]
    }

    ghost function Averaged(): Averages
      reads this
    {
      Averages(confAvg, failAvg, txCtAvg, feerateAvg)
    }

    /** Every average feerate is within its bucket. */
    ghost predicate InBounds()
      reads this
    {
      RatesOk(txCtAvg, feerateAvg, buckets.bounds)
    }

    /** The counts are of `txs`, after a block at `best`. */
    ghost predicate Counts(txs: map<Txid, Entry>, best: nat)
      reads this
    {
      Tracks(unconfTxs, oldUnconfTxs, Bins(), |buckets.bounds|, txs, best)
    }

    /** Some row counts more than there are of `txs`. */
    ghost predicate TooMany(txs: map<Txid, Entry>, best: nat)
      requires Valid()
      reads this
    {
      Overcounts(unconfTxs, Bins(), |buckets.bounds|, txs, best)
    }

    constructor (buckets: Buckets, periods: nat, decay: real, scale: nat)
      requires ValidBuckets(buckets) && OrderedBounds(buckets.bounds)
      requires 0.0 < decay < 1.0 && scale > 0 && periods > 0
      ensures Valid() && this.buckets == buckets && Bins() == scale * periods && Counts(map[], 0) && InBounds()
      ensures this.decay == decay && this.scale == scale
    {
      var count := |buckets.bounds|;
      this.buckets, this.decay, this.scale, this.periods := buckets, decay, scale, periods;
      confAvg, failAvg := seq(periods, _ => seq(count, _ => 0.0)), seq(periods, _ => seq(count, _ => 0.0));
      txCtAvg, feerateAvg := seq(count, _ => 0.0), seq(count, _ => 0.0);
      unconfTxs, oldUnconfTxs := seq(scale * periods, _ => seq(count, _ => 0)), seq(count, _ => 0);
      assert scale * periods > 0;
      NothingTracked(scale * periods, count);
    }

    /** Rolls the circular buffer. */
    method ClearCurrent(height: nat)
      requires Valid()
      modifies `unconfTxs, `oldUnconfTxs
      ensures Valid() && unconfTxs == Cleared(old(unconfTxs), Bins(), |buckets.bounds|, height)
      ensures oldUnconfTxs == Added(old(oldUnconfTxs), old(unconfTxs)[height % Bins()])
    {
      var count, current := |buckets.bounds|, unconfTxs[height % |unconfTxs|];
      ghost var before := oldUnconfTxs;
      for j := 0 to count
        modifies `oldUnconfTxs
        invariant |oldUnconfTxs| == count
        invariant forall b :: 0 <= b < count ==> oldUnconfTxs[b] == if b < j then before[b] + current[b] else before[b]
      {
        oldUnconfTxs := oldUnconfTxs[j := oldUnconfTxs[j] + current[j]];
      }
      unconfTxs := unconfTxs[height % |unconfTxs| := seq(count, _ => 0)];
    }

    /** Records a transaction that was confirmed after so many blocks: within
        each of the periods that are long enough. */
    method Record(blocksToConfirm: int, feerate: real) returns (ghost bucket: nat)
      requires Valid()
      modifies `confAvg, `txCtAvg, `feerateAvg
      ensures Valid()
      ensures old(Reaches(feerate)) ==> InBounds()
      ensures blocksToConfirm < 1 ==>
                confAvg == old(confAvg) && txCtAvg == old(txCtAvg) && feerateAvg == old(feerateAvg)
      ensures blocksToConfirm >= 1 ==>
                && IsBucketOf(buckets.bounds, feerate, bucket)
                && txCtAvg == old(txCtAvg)[bucket := old(txCtAvg)[bucket] + 1.0]
                && feerateAvg == old(feerateAvg)[bucket := old(feerateAvg)[bucket] + feerate]
                && CountedWithin(old(confAvg), scale, blocksToConfirm, bucket, confAvg)
    {
      bucket := 0;
      if blocksToConfirm < 1 {
        return;
      }
      var first := (blocksToConfirm + scale - 1) / scale;
      var found := Find(buckets, feerate);
      bucket := found;
      var conf := AddToRows(confAvg, first - 1, |confAvg|, found);
      RecordedAverages(this, blocksToConfirm, found, conf);
      if Reaches(feerate) {
        BucketHolds(buckets.bounds, feerate, bucket);
        ConfirmedRates(txCtAvg, feerateAvg, buckets.bounds, bucket, feerate);
      }
      confAvg, txCtAvg, feerateAvg :=
        conf, txCtAvg[found := txCtAvg[found] + 1.0], feerateAvg[found := feerateAvg[found] + feerate];
    }

    /** Adds one in the bucket `b` of some of the rows. */
    static method AddToRows(g: Grid, lo: int, hi: int, b: nat) returns (g': Grid)
      requires 0 <= lo && hi <= |g| && forall i :: 0 <= i < |g| ==> b < |g[i]|
      ensures OneMoreIn(g, lo, hi, b, g')
    {
      g' := g;
      var i := lo;
      while i < hi
        invariant lo <= i && |g'| == |g|
        invariant forall k :: 0 <= k < |g| ==> g'[k] == if lo <= k < i && k < hi then g[k][b := g[k][b] + 1.0] else g[k]
      {
        g' := g'[i := g'[i][b := g'[i][b] + 1.0]];
        i := i + 1;
      }
    }

    /** Decays every average by one block. */
    method UpdateMovingAverages()
      requires Valid()
      modifies `confAvg, `failAvg, `txCtAvg, `feerateAvg
      ensures Valid() && txCtAvg == Scaled(old(txCtAvg), decay) && feerateAvg == Scaled(old(feerateAvg), decay)
      ensures GridScaled(old(confAvg), decay, confAvg) && GridScaled(old(failAvg), decay, failAvg)
      ensures old(InBounds()) ==> InBounds()
    {
      var conf := DecayRows(confAvg, decay);
      var fail := DecayRows(failAvg, decay);
      ScaledAverages(confAvg, failAvg, txCtAvg, |buckets.bounds|, periods, decay, conf, fail);
      if InBounds() {
        ScaledRates(txCtAvg, feerateAvg, buckets.bounds, decay);
      }
      confAvg, failAvg := conf, fail;
      feerateAvg := Scaled(feerateAvg, decay);
      txCtAvg := Scaled(txCtAvg, decay);
    }

    static method DecayRows(g: Grid, d: real) returns (g': Grid)
      ensures GridScaled(g, d, g')
    {
      g' := g;
      for i := 0 to |g|
        invariant |g'| == |g| && forall k :: 0 <= k < |g| ==> g'[k] == if k < i then Scaled(g[k], d) else g[k]
      {
        g' := g'[i := Scaled(g'[i], d)];
      }
    }

    /** Counts a transaction that enters the mempool, and tells its bucket. */
    method NewTx(height: nat, feerate: real) returns (bucket: nat)
      requires Valid()
      modifies `unconfTxs
      ensures Valid() && IsBucketOf(buckets.bounds, feerate, bucket)
      ensures var row := height % Bins();
              unconfTxs == old(unconfTxs)[row := More(old(unconfTxs)[row], bucket)]
    {
      bucket := Find(buckets, feerate);
      var row := height % |unconfTxs|;
      unconfTxs := unconfTxs[row := unconfTxs[row][bucket := unconfTxs[row][bucket] + 1]];
    }

    /** How long ago a transaction entered: none where no block was seen. */
    static function BlocksAgo(entryHeight: nat, best: nat): int {
      if best == 0 then 0 else best - entryHeight
    }

    /** Stops counting a transaction: a count of zero stays as it is, but none of
        those that are counted has one. One that was not mined counts as failed in
        each of the periods that it waited out. */
    method RemoveTx(entryHeight: nat, best: nat, bucket: nat, inBlock: bool, ghost txs: map<Txid, Entry>, ghost t: Txid)
      requires Valid() && bucket < |buckets.bounds|
      modifies `unconfTxs, `oldUnconfTxs, `failAvg
      ensures Valid()
      ensures old(Counts(txs, best)) && t in txs && txs[t] == Entry(entryHeight, bucket) ==> Counts(txs - {t}, best)
      ensures var ago, row := BlocksAgo(entryHeight, best), entryHeight % Bins();
              && oldUnconfTxs == (if ago >= Bins() then Lowered(old(oldUnconfTxs), bucket) else old(oldUnconfTxs))
              && unconfTxs == (if 0 <= ago < Bins() then old(unconfTxs)[row := Lowered(old(unconfTxs)[row], bucket)]
                               else old(unconfTxs))
              && (if inBlock || ago < 0 then failAvg == old(failAvg)
                  else CountedAfter(old(failAvg), scale, ago, bucket, failAvg))
    {
      var blocksAgo := BlocksAgo(entryHeight, best);
      if old(Counts(txs, best)) && t in txs && txs[t] == Entry(entryHeight, bucket) {
        assert blocksAgo == best - entryHeight;
        Left(unconfTxs, oldUnconfTxs, Bins(), |buckets.bounds|, txs, best, t);
      }
      if blocksAgo < 0 {
        return;
      }
      if blocksAgo >= |unconfTxs| {
        if oldUnconfTxs[bucket] > 0 {
          oldUnconfTxs := oldUnconfTxs[bucket := oldUnconfTxs[bucket] - 1];
        }
      } else {
        var row := entryHeight % |unconfTxs|;
        if unconfTxs[row][bucket] > 0 {
          unconfTxs := unconfTxs[row := unconfTxs[row][bucket := unconfTxs[row][bucket] - 1]];
        }
      }
      CountFailure(blocksAgo, bucket, inBlock);
    }

    method CountFailure(blocksAgo: nat, bucket: nat, inBlock: bool)
      requires Valid() && bucket < |buckets.bounds|
      modifies `failAvg
      ensures Valid()
      ensures if inBlock then failAvg == old(failAvg) else CountedAfter(old(failAvg), scale, blocksAgo, bucket, failAvg)
    {
      if !inBlock && blocksAgo >= scale {
        var periodsAgo := blocksAgo / scale;
        var hi := if periodsAgo < |failAvg| then periodsAgo else |failAvg|;
        var fail := AddToRows(failAvg, 0, hi, bucket);
        AfterRows(failAvg, scale, blocksAgo, bucket, fail);
        FailedAverages(confAvg, failAvg, txCtAvg, |buckets.bounds|, periods, hi, bucket, fail);
        failAvg := fail;
      } else if !inBlock {
        NoneAfter(failAvg, scale, blocksAgo, bucket);
      }
    }

    /** The period of a target. */
    function Period(confTarget: nat): (p: nat)
      requires 1 <= confTarget <= scale * periods && scale > 0
      ensures 1 <= p <= periods
    {
      RoundedUp(confTarget, scale, periods);
      RoundedUp(confTarget, scale, 0);
      (confTarget + scale - 1) / scale
    }

    /** What the scan adds up. */
    ghost function ScanRows(confTarget: nat, height: nat): (r: Rows)
      requires Valid() && 1 <= confTarget <= Bins()
      reads this
      ensures ValidRows(r, |buckets.bounds|)
    {
      var p := Period(confTarget) - 1;
      ColumnsNotNegative(this, p);
      Rows(confAvg[p], failAvg[p], txCtAvg, Extras(unconfTxs, oldUnconfTxs, Bins(), height, confTarget))
    }

    method CountWaiting(confTarget: nat, height: nat, bucket: nat) returns (extra: nat)
      requires Valid() && bucket < |buckets.bounds|
      ensures extra == ScannedRows(unconfTxs, Bins(), height, bucket, confTarget) + oldUnconfTxs[bucket]
    {
      extra := 0;
      var confirms, bins := confTarget, |unconfTxs|;
      while confirms < scale * periods
        invariant extra + ScannedRows(unconfTxs, bins, height, bucket, confirms)
               == ScannedRows(unconfTxs, bins, height, bucket, confTarget)
      {
        extra := extra + unconfTxs[ScanRow(height, confirms, bins)][bucket];
        confirms := confirms + 1;
      }
      extra := extra + oldUnconfTxs[bucket];
    }

    /** Adds the bucket `b` to the range, and tests it where there are enough. */
    method ScanBucket(b: nat, confTarget: nat, need: real, success: real, height: nat, s: Scan) returns (s': Scan)
      requires Valid() && 1 <= confTarget <= Bins() && b < |buckets.bounds| && need > 0.0
      requires Scanned(ScanRows(confTarget, height), |buckets.bounds|, buckets.bounds, need, success, b + 1, s)
      ensures Scanned(ScanRows(confTarget, height), |buckets.bounds|, buckets.bounds, need, success, b, s')
    {
      var p := Period(confTarget) - 1;
      var extra := CountWaiting(confTarget, height, b);
      ghost var r := ScanRows(confTarget, height);
      assert r.extra[b] == extra as real;
      s' := StepBucket(r, buckets.bounds, need, success, b, s, confAvg[p][b], failAvg[p][b], txCtAvg[b], extra as real);
    }

    /** From the highest bucket down, ranges of buckets are tested; the answer is
        the average feerate of the bucket that has the median transaction of the
        lowest range that passes, or -1. */
    method EstimateMedianVal(confTarget: nat, sufficient: real, success: real, height: nat)
      returns (median: real, pass: EstimatorBucket, fail: EstimatorBucket)
      requires Valid() && 1 <= confTarget <= Bins() && sufficient > 0.0
      ensures Reported(ScanRows(confTarget, height), |buckets.bounds|, buckets.bounds, Need(sufficient, decay), success,
                       pass, fail)
      ensures Lowest(confTarget, sufficient, success, height) == |buckets.bounds| ==> median == -1.0
      ensures Lowest(confTarget, sufficient, success, height) < |buckets.bounds| ==>
                && (InBounds() ==> pass.start <= median <= pass.end)
                && IsMedianFeerate(txCtAvg, feerateAvg, Lowest(confTarget, sufficient, success, height),
                                   Highest(confTarget, sufficient, success, height), median)
    {
      var s;
      s, pass, fail := EstimateRange(confTarget, Need(sufficient, decay), success, height);
      median := -1.0;
      if s.foundAnswer {
        median := MedianFeerate(s.bestFar, s.bestNear);
      }
    }

    /** The lowest bucket of the range that is reported, or their number. */
    ghost function Lowest(confTarget: nat, sufficient: real, success: real, height: nat): (far: nat)
      requires Valid() && 1 <= confTarget <= Bins() && sufficient > 0.0
      reads this
      ensures far <= |buckets.bounds|
    {
      LowestGood(ScanRows(confTarget, height), |buckets.bounds|, Need(sufficient, decay), success, 0)
    }

    /** And the highest. */
    ghost function Highest(confTarget: nat, sufficient: real, success: real, height: nat): (near: nat)
      requires Valid() && 1 <= confTarget <= Bins() && sufficient > 0.0
      requires Lowest(confTarget, sufficient, success, height) < |buckets.bounds|
      reads this
      ensures Lowest(confTarget, sufficient, success, height) <= near < |buckets.bounds|
    {
      Near(ScanRows(confTarget, height), |buckets.bounds|, Need(sufficient, decay), success,
           Lowest(confTarget, sufficient, success, height))
    }

    method EstimateRange(confTarget: nat, need: real, success: real, height: nat)
      returns (s: Scan, pass: EstimatorBucket, fail: EstimatorBucket)
      requires Valid() && 1 <= confTarget <= Bins() && need > 0.0
      ensures Reported(ScanRows(confTarget, height), |buckets.bounds|, buckets.bounds, need, success, pass, fail)
      ensures Found(ScanRows(confTarget, height), |buckets.bounds|, need, success, s)
      ensures s.foundAnswer ==> s.bestFar <= s.bestNear < |txCtAvg| && Sum(txCtAvg, s.bestFar, s.bestNear + 1) > 0.0
      ensures s.foundAnswer ==>
                pass.start == LowBound(buckets.bounds, s.bestFar) && pass.end == buckets.bounds[s.bestNear]
    {
      s := ScanAll(confTarget, need, success, height);
      pass, fail := ReportRanges(ScanRows(confTarget, height), buckets.bounds, need, success, s);
    }

    /** The average feerate of the bucket that has the median transaction. */
    method MedianFeerate(low: nat, high: nat) returns (median: real)
      requires Valid() && low <= high < |txCtAvg| && Sum(txCtAvg, low, high + 1) > 0.0
      ensures IsMedianFeerate(txCtAvg, feerateAvg, low, high, median)
      ensures InBounds() ==> LowBound(buckets.bounds, low) <= median <= buckets.bounds[high]
    {
      var j := FindMedian(low, high);
      median := feerateAvg[j] / txCtAvg[j];
      if InBounds() {
        MedianWithinBuckets(this, low, high, j);
      }
    }

    method ScanAll(confTarget: nat, need: real, success: real, height: nat) returns (s: Scan)
      requires Valid() && 1 <= confTarget <= Bins() && need > 0.0
      ensures Scanned(ScanRows(confTarget, height), |buckets.bounds|, buckets.bounds, need, success, 0, s)
    {
      var n := |buckets.bounds|;
      var maxBucket := n - 1;
      s := START.(curNear := maxBucket, curFar := maxBucket, bestNear := maxBucket, bestFar := maxBucket);
      ScanStart(ScanRows(confTarget, height), n, buckets.bounds, need, success, maxBucket);
      for b := n downto 0
        invariant Scanned(ScanRows(confTarget, height), n, buckets.bounds, need, success, b, s)
      {
        s := ScanBucket(b, confTarget, need, success, height, s);
      }
    }

    /** The bucket in which half of the transactions from `low` on are reached. */
    method FindMedian(low: nat, high: nat) returns (j: nat)
      requires Valid() && low <= high < |txCtAvg| && Sum(txCtAvg, low, high + 1) > 0.0
      ensures IsMedian(txCtAvg, low, high, j) && txCtAvg[j] > 0.0
    {
      AveragesNotNegative(this);
      var txSum := SumOf(txCtAvg, low, high + 1);
      txSum := txSum / 2.0;
      j := low;
      while txCtAvg[j] < txSum
        invariant low <= j <= high && txSum > 0.0
        invariant txSum == Sum(txCtAvg, low, high + 1) / 2.0 - Sum(txCtAvg, low, j)
        decreases high - j
      {
        MedianWithin(txCtAvg, low, high, j, txSum);
        txSum := txSum - txCtAvg[j];
        j := j + 1;
      }
      MedianReached(txCtAvg, low, high, j, txSum);
    }
  }

  method SumOf(s: seq<real>, lo: nat, hi: nat) returns (sum: real)
    requires lo <= hi <= |s|
    ensures sum == Sum(s, lo, hi)
  {
    sum := 0.0;
    for j := lo to hi
      invariant sum == Sum(s, lo, j)
    {
      SumSplit(s, lo, j, j + 1);
      assert Sum(s, j, j + 1) == s[j] + Sum(s, j + 1, j + 1);
      sum := sum + s[j];
    }
  }

  lemma AveragesNotNegative(s: TxConfirmStats)
    requires s.Valid()
    ensures forall b :: 0 <= b < |s.txCtAvg| ==> s.txCtAvg[b] >= 0.0
  {
    forall b | 0 <= b < |s.txCtAvg|
      ensures s.txCtAvg[b] >= 0.0
    {
      assert ColumnOk(s.confAvg, s.failAvg, s.txCtAvg, s.periods, b);
    }
  }

  lemma MedianWithinBuckets(s: TxConfirmStats, low: nat, high: nat, k: nat)
    requires s.Valid() && s.InBounds() && low <= k <= high < |s.txCtAvg| && s.txCtAvg[k] > 0.0
    ensures LowBound(s.buckets.bounds, low) <= s.feerateAvg[k] / s.txCtAvg[k] <= s.buckets.bounds[high]
  {
    assert RateOk(s.txCtAvg[k], s.feerateAvg[k], s.buckets.bounds, k);
    OrderedIncreasing(s.buckets.bounds);
    MedianInRange(s.buckets.bounds, low, high, k, s.txCtAvg[k], s.feerateAvg[k]);
  }

  lemma ColumnsNotNegative(s: TxConfirmStats, p: nat)
    requires s.Valid() && p < s.periods
    ensures |s.confAvg| == s.periods && |s.failAvg| == s.periods && |s.txCtAvg| == |s.buckets.bounds|
    ensures |s.confAvg[p]| == |s.buckets.bounds| && |s.failAvg[p]| == |s.buckets.bounds|
    ensures forall b :: 0 <= b < |s.buckets.bounds| ==>
              s.confAvg[p][b] >= 0.0 && s.failAvg[p][b] >= 0.0 && s.txCtAvg[b] >= 0.0
  {
    forall b | 0 <= b < |s.buckets.bounds|
      ensures s.confAvg[p][b] >= 0.0 && s.failAvg[p][b] >= 0.0 && s.txCtAvg[b] >= 0.0
    {
      assert ColumnOk(s.confAvg, s.failAvg, s.txCtAvg, s.periods, b);
    }
  }

  /** What the scan counts as still waiting, by bucket. */
  ghost function Extras(recent: seq<seq<nat>>, old_: seq<nat>, bins: nat, height: nat, confirms: nat): (e: seq<real>)
    requires Shaped(recent, old_, bins, |old_|)
    ensures |e| == |old_| && forall b :: 0 <= b < |e| ==> e[b] >= 0.0
  {
    seq(|old_|, b requires 0 <= b < |old_| => (ScannedRows(recent, bins, height, b, confirms) + old_[b]) as real)
  }

  lemma RecordedAverages(s: TxConfirmStats, blocks: nat, bucket: nat, conf: Grid)
    requires s.Valid() && blocks > 0 && bucket < |s.buckets.bounds|
    requires OneMoreIn(s.confAvg, (blocks + s.scale - 1) / s.scale - 1, |s.confAvg|, bucket, conf)
    ensures CountedWithin(s.confAvg, s.scale, blocks, bucket, conf)
    ensures AveragesOk(conf, s.failAvg, s.txCtAvg[bucket := s.txCtAvg[bucket] + 1.0], |s.buckets.bounds|, s.periods)
  {
    WithinRows(s.confAvg, s.scale, blocks, bucket, conf);
    ConfirmedAverages(s.confAvg, s.failAvg, s.txCtAvg, |s.buckets.bounds|, s.periods,
                      (blocks + s.scale - 1) / s.scale - 1, bucket, conf);
  }

  /** `g'` has one more in the bucket `b` of each row whose periods are enough
      for so many blocks. */
  ghost predicate CountedWithin(g: Grid, scale: nat, blocks: int, b: nat, g': Grid) {
    && |g'| == |g|
    && forall i :: 0 <= i < |g| ==>
         b < |g[i]| && g'[i] == if scale * (i + 1) >= blocks then g[i][b := g[i][b] + 1.0] else g[i]
  }

  /** And here, of each row whose periods had passed after so many blocks. */
  ghost predicate CountedAfter(g: Grid, scale: nat, blocks: int, b: nat, g': Grid) {
    && |g'| == |g|
    && forall i :: 0 <= i < |g| ==>
         b < |g[i]| && g'[i] == if scale * (i + 1) <= blocks then g[i][b := g[i][b] + 1.0] else g[i]
  }

  lemma WithinRows(g: Grid, scale: nat, blocks: nat, b: nat, g': Grid)
    requires scale > 0 && blocks > 0 && OneMoreIn(g, (blocks + scale - 1) / scale - 1, |g|, b, g')
    ensures CountedWithin(g, scale, blocks, b, g')
  {
    forall i | 0 <= i < |g|
      ensures g'[i] == if scale * (i + 1) >= blocks then g[i][b := g[i][b] + 1.0] else g[i]
    {
      RoundedUp(blocks, scale, i + 1);
    }
  }

  lemma AfterRows(g: Grid, scale: nat, blocks: nat, b: nat, g': Grid)
    requires scale > 0 && OneMoreIn(g, 0, if blocks / scale < |g| then blocks / scale else |g|, b, g')
    ensures CountedAfter(g, scale, blocks, b, g')
  {
    forall i | 0 <= i < |g|
      ensures g'[i] == if scale * (i + 1) <= blocks then g[i][b := g[i][b] + 1.0] else g[i]
    {
      RoundedDown(blocks, scale, i + 1);
    }
  }

  lemma NoneAfter(g: Grid, scale: nat, blocks: nat, b: nat)
    requires blocks < scale && forall i :: 0 <= i < |g| ==> b < |g[i]|
    ensures CountedAfter(g, scale, blocks, b, g)
  {
    forall i | 0 <= i < |g|
      ensures scale * (i + 1) > blocks && b < |g[i]|
    {
      Steps(scale, 1, i + 1);
    }
  }

  lemma NothingTracked(bins: nat, count: nat)
    requires bins > 0
    ensures Tracks(seq(bins, _ => seq(count, _ => 0)), seq(count, _ => 0), bins, count, map[], 0)
  {
    var recent: seq<seq<nat>> := seq(bins, _ => seq(count, _ => 0));
    forall h: int, b: nat | InWindow(h, 0, bins) && b < count
      ensures recent[h % bins][b] == |At(map[], h, b)|
    {
      NoneAt(map[], h, b);
    }
    var zeros: seq<nat> := seq(count, _ => 0);
    forall b: nat | b < |zeros|
      ensures zeros[b] == |UpTo(map[], 0 - bins, b)|
    {
      assert UpTo(map[], 0 - bins, b) == {};
    }
  }

  /** So many blocks are within `k` periods exactly where they round up to no
      more. */
  lemma RoundedUp(blocks: nat, scale: nat, k: nat)
    requires scale > 0 && blocks > 0
    ensures scale * k >= blocks <==> (blocks + scale - 1) / scale <= k
  {
    var q, r := (blocks + scale - 1) / scale, (blocks + scale - 1) % scale;
    assert blocks + scale - 1 == scale * q + r;
    Steps(scale, q, k);
  }

  lemma RoundedDown(blocks: nat, scale: nat, k: nat)
    requires scale > 0
    ensures scale * k <= blocks <==> k <= blocks / scale
  {
    var q, r := blocks / scale, blocks % scale;
    assert blocks == scale * q + r;
    Steps(scale, q, k);
  }

  lemma Steps(scale: nat, q: nat, k: nat)
    ensures q <= k ==> scale * q <= scale * k
    ensures q < k ==> scale * q + scale <= scale * k
    ensures k < q ==> scale * k + scale <= scale * q
  {
    if q < k {
      assert scale * (q + 1) <= scale * k;
    }
    if k < q {
      assert scale * (k + 1) <= scale * q;
    }
  }
}
