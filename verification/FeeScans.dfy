/** The scan of the buckets, from the highest down, for the lowest range of them
    in which enough transactions were confirmed in time. */
module FeeScans {

  /** A range of buckets and its counts. */
  datatype EstimatorBucket = EstimatorBucket(
    start: real,
    end: real,
    withinTarget: real,
    totalConfirmed: real,
    inMempool: real,
    leftMempool: real)

  const NO_RANGE := EstimatorBucket(-1.0, -1.0, 0.0, 0.0, 0.0, 0.0)

  /** What the scan adds up, by bucket: those confirmed in time, those that left,
      all that were confirmed, and those that have waited too long. */
  datatype Rows = Rows(conf: seq<real>, fail: seq<real>, ct: seq<real>, extra: seq<real>)

  ghost predicate ValidRows(r: Rows, n: nat) {
    && |r.conf| == n && |r.fail| == n && |r.ct| == n && |r.extra| == n
    && forall b :: 0 <= b < n ==> r.conf[b] >= 0.0 && r.fail[b] >= 0.0 && r.ct[b] >= 0.0 && r.extra[b] >= 0.0
  }

  /** The sum of `s[lo..hi]`. */
  ghost function Sum(s: seq<real>, lo: nat, hi: nat): real
    requires hi <= |s|
    decreases if hi >= lo then hi - lo else 0
  {
    if lo >= hi then 0.0 else s[lo] + Sum(s, lo + 1, hi)
  }

  lemma {:induction false} SumNotNegative(s: seq<real>, lo: nat, hi: nat)
    requires hi <= |s| && forall i :: 0 <= i < |s| ==> s[i] >= 0.0
    ensures Sum(s, lo, hi) >= 0.0
    decreases if hi >= lo then hi - lo else 0
  {
    if lo < hi {
      SumNotNegative(s, lo + 1, hi);
    }
  }

  /** The transactions since the last test, after the buckets from `b` up. */
  ghost function Partial(ct: seq<real>, need: real, b: nat): real
    requires b <= |ct|
    decreases |ct| - b
  {
    if b == |ct| then 0.0
    else if Tested(ct, need, b) then 0.0
    else Partial(ct, need, b + 1) + ct[b]
  }

  /** There are enough transactions for a test at the bucket `b`. */
  ghost predicate Tested(ct: seq<real>, need: real, b: nat)
    requires b < |ct|
    decreases |ct| - b, 0
  {
    Partial(ct, need, b + 1) + ct[b] >= need
  }

  ghost function Outcomes(r: Rows, n: nat, lo: nat, near: nat): real
    requires ValidRows(r, n) && near < n
  {
    Sum(r.ct, lo, near + 1) + Sum(r.fail, lo, near + 1) + Sum(r.extra, lo, near + 1)
  }

  /** Of the transactions in the buckets from `lo` to `near`, enough were
      confirmed in time. */
  ghost predicate Passes(r: Rows, n: nat, success: real, lo: nat, near: nat)
    requires ValidRows(r, n) && near < n
  {
    Outcomes(r, n, lo, near) > 0.0 && Sum(r.conf, lo, near + 1) / Outcomes(r, n, lo, near) >= success
  }

  /** Where the range starts that the bucket `b` is in: at the highest bucket, or
      below the last range that passed. */
  ghost function Near(r: Rows, n: nat, need: real, success: real, b: nat): (near: nat)
    requires ValidRows(r, n) && b < n
    ensures b <= near < n
    decreases n - b, 0
  {
    if b == n - 1 then b
    else if Good(r, n, need, success, b + 1) then b
    else Near(r, n, need, success, b + 1)
  }

  /** A range that passes ends at the bucket `b`. */
  ghost predicate Good(r: Rows, n: nat, need: real, success: real, b: nat)
    requires ValidRows(r, n) && b < n
    decreases n - b, 1
  {
    Tested(r.ct, need, b) && Passes(r, n, success, b, Near(r, n, need, success, b))
  }

  function LowBound(bounds: seq<real>, b: nat): real
    requires b < |bounds|
  {
    if b == 0 then 0.0 else bounds[b - 1]
  }

  ghost function RangeOf(r: Rows, n: nat, bounds: seq<real>, lo: nat, near: nat): EstimatorBucket
    requires ValidRows(r, n) && |bounds| == n && lo <= near < n
  {
    EstimatorBucket(LowBound(bounds, lo), bounds[near], Sum(r.conf, lo, near + 1), Sum(r.ct, lo, near + 1),
                    Sum(r.extra, lo, near + 1), Sum(r.fail, lo, near + 1))
  }

  /** The variables of the scan. */
  datatype Scan = Scan(
    nConf: real,
    totalNum: real,
    extraNum: real,
    failNum: real,
    partialNum: real,
    curNear: nat,
    curFar: nat,
    bestNear: nat,
    bestFar: nat,
    foundAnswer: bool,
    newRange: bool,
    passing: bool,
    pass: EstimatorBucket,
    fail: EstimatorBucket)

  /** What holds after the buckets from `b` up, of the range that goes on. */
  ghost predicate InRange(r: Rows, n: nat, bounds: seq<real>, need: real, success: real, b: nat, s: Scan)
    requires ValidRows(r, n) && |bounds| == n && b <= n
  {
    && s.partialNum == Partial(r.ct, need, b)
    && (s.newRange <==> b == n || Good(r, n, need, success, b))
    && (s.newRange ==> s.nConf == 0.0 && s.totalNum == 0.0 && s.extraNum == 0.0 && s.failNum == 0.0 && s.passing
                       && s.fail == NO_RANGE)
    && (!s.newRange ==>
          && s.curNear == Near(r, n, need, success, b) && s.curFar == b
          && s.nConf == Sum(r.conf, b, s.curNear + 1) && s.totalNum == Sum(r.ct, b, s.curNear + 1)
          && s.extraNum == Sum(r.extra, b, s.curNear + 1) && s.failNum == Sum(r.fail, b, s.curNear + 1)
          && (s.passing ==> s.fail == NO_RANGE && forall c :: b <= c <= s.curNear ==> !Tested(r.ct, need, c))
          && (!s.passing ==>
                exists lo :: b <= lo <= s.curNear && FirstFailed(r, n, bounds, need, lo, s.curNear, s.fail)))
  }

  /** The first test in the range from `near` down was at `lo`, and failed. */
  ghost predicate FirstFailed(r: Rows, n: nat, bounds: seq<real>, need: real, lo: nat, near: nat, fail: EstimatorBucket)
    requires ValidRows(r, n) && |bounds| == n && lo <= near < n
  {
    && fail == RangeOf(r, n, bounds, lo, near) && Tested(r.ct, need, lo)
    && forall c :: lo < c <= near ==> !Tested(r.ct, need, c)
  }

  /** And of the best answer so far: the lowest range that passed. */
  ghost predicate BestSoFar(r: Rows, n: nat, bounds: seq<real>, need: real, success: real, b: nat, s: Scan)
    requires ValidRows(r, n) && |bounds| == n && b <= n
  {
    && (s.foundAnswer <==> exists c :: b <= c < n && Good(r, n, need, success, c))
    && (s.foundAnswer ==>
          && b <= s.bestFar < n && Good(r, n, need, success, s.bestFar)
          && s.bestNear == Near(r, n, need, success, s.bestFar)
          && (forall c :: b <= c < s.bestFar ==> !Good(r, n, need, success, c))
          && s.pass.(start := 0.0, end := 0.0)
             == RangeOf(r, n, bounds, s.bestFar, s.bestNear).(start := 0.0, end := 0.0))
    && (!s.foundAnswer ==> s.pass == NO_RANGE)
  }

  ghost predicate Scanned(r: Rows, n: nat, bounds: seq<real>, need: real, success: real, b: nat, s: Scan)
    requires ValidRows(r, n) && |bounds| == n && b <= n
  {
    InRange(r, n, bounds, need, success, b, s) && BestSoFar(r, n, bounds, need, success, b, s)
  }

  const START := Scan(0.0, 0.0, 0.0, 0.0, 0.0, 0, 0, 0, 0, false, true, true, NO_RANGE, NO_RANGE)

  lemma ScanStart(r: Rows, n: nat, bounds: seq<real>, need: real, success: real, near: nat)
    requires ValidRows(r, n) && |bounds| == n
    ensures Scanned(r, n, bounds, need, success, n,
                    START.(curNear := near, curFar := near, bestNear := near, bestFar := near))
  {
  }

  /** The variables once the bucket `b` is added. */
  function WithBucket(s: Scan, b: nat, conf: real, fail: real, ct: real, extra: real): Scan {
    s.(curNear := if s.newRange then b else s.curNear, newRange := false, curFar := b,
       nConf := s.nConf + conf, partialNum := s.partialNum + ct, totalNum := s.totalNum + ct,
       failNum := s.failNum + fail,
       extraNum := s.extraNum + extra)
  }

  /** What the variables hold of the range, once the bucket `b` is added. */
  ghost predicate Summed(r: Rows, n: nat, need: real, success: real, b: nat, s: Scan)
    requires ValidRows(r, n) && b < n
  {
    && s.curNear == Near(r, n, need, success, b) && s.curFar == b && !s.newRange
    && s.nConf == Sum(r.conf, b, s.curNear + 1) && s.totalNum == Sum(r.ct, b, s.curNear + 1)
    && s.extraNum == Sum(r.extra, b, s.curNear + 1) && s.failNum == Sum(r.fail, b, s.curNear + 1)
    && s.partialNum == Partial(r.ct, need, b + 1) + r.ct[b]
  }

  lemma AddBucket(r: Rows, n: nat, bounds: seq<real>, need: real, success: real, b: nat, s: Scan)
    requires ValidRows(r, n) && |bounds| == n && b < n && InRange(r, n, bounds, need, success, b + 1, s)
    ensures Summed(r, n, need, success, b, WithBucket(s, b, r.conf[b], r.fail[b], r.ct[b], r.extra[b]))
  {
    assert Sum(r.conf, b + 1, b + 1) == 0.0 && Sum(r.ct, b + 1, b + 1) == 0.0;
    assert Sum(r.fail, b + 1, b + 1) == 0.0 && Sum(r.extra, b + 1, b + 1) == 0.0;
  }

  /** A test is of a positive number of transactions. */
  lemma {:induction false} PartialInRange(r: Rows, n: nat, need: real, success: real, b: nat)
    requires ValidRows(r, n) && b < n
    ensures Partial(r.ct, need, b + 1) + r.ct[b] <= Sum(r.ct, b, Near(r, n, need, success, b) + 1)
    ensures Partial(r.ct, need, b) >= 0.0 && Partial(r.ct, need, b) <= Sum(r.ct, b, Near(r, n, need, success, b) + 1)
    decreases n - b
  {
    SumNotNegative(r.ct, b, Near(r, n, need, success, b) + 1);
    SumNotNegative(r.ct, b + 1, Near(r, n, need, success, b) + 1);
    if b < n - 1 {
      PartialInRange(r, n, need, success, b + 1);
    }
  }

  lemma TestIsPositive(r: Rows, n: nat, need: real, success: real, b: nat)
    requires ValidRows(r, n) && b < n && need > 0.0 && Tested(r.ct, need, b)
    ensures Sum(r.ct, b, Near(r, n, need, success, b) + 1) > 0.0
    ensures Outcomes(r, n, b, Near(r, n, need, success, b)) > 0.0
  {
    var near := Near(r, n, need, success, b);
    PartialInRange(r, n, need, success, b);
    SumNotNegative(r.fail, b, near + 1);
    SumNotNegative(r.extra, b, near + 1);
  }

  /** Too few for a test. */
  lemma StepUntested(r: Rows, n: nat, bounds: seq<real>, need: real, success: real, b: nat, s: Scan, s': Scan)
    requires ValidRows(r, n) && |bounds| == n && b < n && Scanned(r, n, bounds, need, success, b + 1, s)
    requires s' == WithBucket(s, b, r.conf[b], r.fail[b], r.ct[b], r.extra[b]) && Summed(r, n, need, success, b, s')
    requires !Tested(r.ct, need, b)
    ensures Scanned(r, n, bounds, need, success, b, s')
  {
    assert !Good(r, n, need, success, b);
    StepPassing(r, n, bounds, need, success, b, s, s');
    StepBest(r, n, bounds, need, success, b, s, s');
  }

  /** Where a range goes on, so does what is known of its tests. */
  lemma StepPassing(r: Rows, n: nat, bounds: seq<real>, need: real, success: real, b: nat, s: Scan, s': Scan)
    requires ValidRows(r, n) && |bounds| == n && b < n && InRange(r, n, bounds, need, success, b + 1, s)
    requires s' == WithBucket(s, b, r.conf[b], r.fail[b], r.ct[b], r.extra[b]) && Summed(r, n, need, success, b, s')
    ensures s'.passing ==> s'.fail == NO_RANGE && forall c :: b < c <= s'.curNear ==> !Tested(r.ct, need, c)
    ensures !s'.passing ==>
              exists lo :: b < lo <= s'.curNear && FirstFailed(r, n, bounds, need, lo, s'.curNear, s'.fail)
  {
    if !s'.passing {
      var lo :| b + 1 <= lo <= s.curNear && FirstFailed(r, n, bounds, need, lo, s.curNear, s.fail);
      assert s'.curNear == s.curNear && s'.fail == s.fail;
    }
  }

  lemma StepBest(r: Rows, n: nat, bounds: seq<real>, need: real, success: real, b: nat, s: Scan, s': Scan)
    requires ValidRows(r, n) && |bounds| == n && b < n && BestSoFar(r, n, bounds, need, success, b + 1, s)
    requires s'.foundAnswer == s.foundAnswer && s'.bestFar == s.bestFar && s'.bestNear == s.bestNear
    requires s'.pass == s.pass
    requires !Good(r, n, need, success, b)
    ensures BestSoFar(r, n, bounds, need, success, b, s')
  {
    if s.foundAnswer {
      var c :| b + 1 <= c < n && Good(r, n, need, success, c);
    }
  }

  /** A test that fails: the first one since the last that passed is kept. */
  lemma StepFailed(r: Rows, n: nat, bounds: seq<real>, need: real, success: real, b: nat, s: Scan, t: Scan, s': Scan)
    requires ValidRows(r, n) && |bounds| == n && b < n && Scanned(r, n, bounds, need, success, b + 1, s)
    requires t == WithBucket(s, b, r.conf[b], r.fail[b], r.ct[b], r.extra[b]) && Summed(r, n, need, success, b, t)
    requires Tested(r.ct, need, b) && !Passes(r, n, success, b, t.curNear)
    requires s' == t.(partialNum := 0.0, passing := false,
                      fail := if t.passing then RangeOf(r, n, bounds, b, t.curNear) else t.fail)
    ensures Scanned(r, n, bounds, need, success, b, s')
  {
    assert !Good(r, n, need, success, b);
    StepPassing(r, n, bounds, need, success, b, s, t);
    StepBest(r, n, bounds, need, success, b, s, s');
    if t.passing {
      assert FirstFailed(r, n, bounds, need, b, s'.curNear, s'.fail);
    }
  }

  /** A test that passes. */
  lemma StepPassed(r: Rows, n: nat, bounds: seq<real>, need: real, success: real, b: nat, s: Scan, t: Scan, s': Scan)
    requires ValidRows(r, n) && |bounds| == n && b < n && Scanned(r, n, bounds, need, success, b + 1, s)
    requires t == WithBucket(s, b, r.conf[b], r.fail[b], r.ct[b], r.extra[b]) && Summed(r, n, need, success, b, t)
    requires Tested(r.ct, need, b) && Passes(r, n, success, b, t.curNear)
    requires s' == t.(partialNum := 0.0, fail := NO_RANGE, foundAnswer := true, passing := true,
                      pass := t.pass.(withinTarget := t.nConf, totalConfirmed := t.totalNum, inMempool := t.extraNum,
                                      leftMempool := t.failNum),
                      nConf := 0.0, totalNum := 0.0, failNum := 0.0, extraNum := 0.0,
                      bestNear := t.curNear, bestFar := t.curFar, newRange := true)
    ensures Scanned(r, n, bounds, need, success, b, s')
  {
    assert Good(r, n, need, success, b);
  }

  /** What a test changes. */
  method AfterTest(s: Scan, bounds: seq<real>, failed: bool) returns (s': Scan)
    requires s.curFar <= s.curNear < |bounds|
    ensures failed ==>
              s' == s.(partialNum := 0.0, passing := false,
                       fail := if s.passing
                               then EstimatorBucket(LowBound(bounds, s.curFar), bounds[s.curNear], s.nConf, s.totalNum,
                                                    s.extraNum, s.failNum)
                               else s.fail)
    ensures !failed ==>
              s' == s.(partialNum := 0.0, fail := NO_RANGE, foundAnswer := true, passing := true,
                       pass := s.pass.(withinTarget := s.nConf, totalConfirmed := s.totalNum, inMempool := s.extraNum,
                                       leftMempool := s.failNum),
                       nConf := 0.0, totalNum := 0.0, failNum := 0.0, extraNum := 0.0,
                       bestNear := s.curNear, bestFar := s.curFar, newRange := true)
  {
    s' := s.(partialNum := 0.0);
    if failed {
      if s'.passing {
        s' :=
          s'.(fail := EstimatorBucket(LowBound(bounds, s.curFar), bounds[s.curNear], s.nConf, s.totalNum, s.extraNum,
                                          s.failNum),
                  passing := false);
      }
      return;
    }
    s' := s'.(fail := NO_RANGE, foundAnswer := true, passing := true);
    s' := s'.(pass := s'.pass.(withinTarget := s'.nConf), nConf := 0.0);
    s' := s'.(pass := s'.pass.(totalConfirmed := s'.totalNum), totalNum := 0.0);
    s' := s'.(pass := s'.pass.(inMempool := s'.extraNum, leftMempool := s'.failNum), failNum := 0.0, extraNum := 0.0);
    s' := s'.(bestNear := s'.curNear, bestFar := s'.curFar, newRange := true);
  }

  /** One bucket of the scan. */
  method StepBucket(ghost r: Rows, bounds: seq<real>, need: real, success: real, b: nat, s: Scan,
                    conf: real, fail: real, ct: real, extra: real)
    returns (s': Scan)
    requires ValidRows(r, |bounds|) && b < |bounds| && need > 0.0
    requires Scanned(r, |bounds|, bounds, need, success, b + 1, s)
    requires r.conf[b] == conf && r.fail[b] == fail && r.ct[b] == ct && r.extra[b] == extra
    ensures Scanned(r, |bounds|, bounds, need, success, b, s')
  {
    ghost var n := |bounds|;
    s' := WithBucket(s, b, conf, fail, ct, extra);
    AddBucket(r, n, bounds, need, success, b, s);
    if s'.partialNum < need {
      StepUntested(r, n, bounds, need, success, b, s, s');
      return;
    }
    ghost var t := s';
    TestIsPositive(r, n, need, success, b);
    var curPct := s'.nConf / (s'.totalNum + s'.failNum + s'.extraNum);
    s' := AfterTest(s', bounds, curPct < success);
    if curPct < success {
      StepFailed(r, n, bounds, need, success, b, s, t, s');
    } else {
      StepPassed(r, n, bounds, need, success, b, s, t, s');
    }
  }

  // --- the median ---

  lemma {:induction false} SumSplit(s: seq<real>, lo: nat, mid: nat, hi: nat)
    requires lo <= mid <= hi <= |s|
    ensures Sum(s, lo, hi) == Sum(s, lo, mid) + Sum(s, mid, hi)
    decreases mid - lo
  {
    if lo < mid {
      SumSplit(s, lo + 1, mid, hi);
    }
  }

  /** `j` is the bucket of the median transaction: half of those from `low` to
      `high` are reached in it, and not before. */
  ghost predicate IsMedian(ct: seq<real>, low: nat, high: nat, j: nat) {
    && low <= j <= high < |ct|
    && Sum(ct, low, j) < Sum(ct, low, high + 1) / 2.0 <= Sum(ct, low, j + 1)
  }

  /** `median` is the average feerate of the bucket of the median transaction. */
  ghost predicate IsMedianFeerate(ct: seq<real>, rates: seq<real>, low: nat, high: nat, median: real)
    requires |rates| == |ct|
  {
    exists j: nat :: IsMedian(ct, low, high, j) && ct[j] > 0.0 && median == rates[j] / ct[j]
  }

  /** There is only one such bucket. */
  lemma OneMedian(ct: seq<real>, low: nat, high: nat, j: nat, k: nat)
    requires IsMedian(ct, low, high, j) && IsMedian(ct, low, high, k) && forall i :: 0 <= i < |ct| ==> ct[i] >= 0.0
    ensures j == k
  {
    if j < k {
      SumSplit(ct, low, j + 1, k);
      SumNotNegative(ct, j + 1, k);
    } else if k < j {
      SumSplit(ct, low, k + 1, j);
      SumNotNegative(ct, k + 1, j);
    }
  }

  /** While the median is looked for, the bucket `high` is never passed. */
  lemma MedianWithin(ct: seq<real>, low: nat, high: nat, j: nat, left: real)
    requires low <= j <= high < |ct| && (forall i :: 0 <= i < |ct| ==> ct[i] >= 0.0)
    requires left == Sum(ct, low, high + 1) / 2.0 - Sum(ct, low, j) && ct[j] < left
    ensures j < high && Sum(ct, low, j + 1) == Sum(ct, low, j) + ct[j]
  {
    SumSplit(ct, low, j, j + 1);
    assert Sum(ct, j, j + 1) == ct[j] + Sum(ct, j + 1, j + 1);
    SumNotNegative(ct, low, high + 1);
  }

  lemma MedianReached(ct: seq<real>, low: nat, high: nat, j: nat, left: real)
    requires low <= j <= high < |ct| && left > 0.0 && ct[j] >= left
    requires left == Sum(ct, low, high + 1) / 2.0 - Sum(ct, low, j)
    ensures IsMedian(ct, low, high, j) && ct[j] > 0.0
  {
    SumSplit(ct, low, j, j + 1);
    assert Sum(ct, j, j + 1) == ct[j] + Sum(ct, j + 1, j + 1);
  }

  /** An average feerate within its bucket is within the range. */
  lemma MedianInRange(bounds: seq<real>, low: nat, high: nat, j: nat, ct: real, rate: real)
    requires low <= j <= high < |bounds| && ct > 0.0 && bounds[0] >= 0.0
    requires forall a, b :: 0 <= a < b < |bounds| ==> bounds[a] < bounds[b]
    requires LowBound(bounds, j) * ct <= rate <= bounds[j] * ct
    ensures LowBound(bounds, low) <= rate / ct <= bounds[high]
  {
    QuotientBetween(LowBound(bounds, j), bounds[j], ct, rate);
    assert LowBound(bounds, low) <= LowBound(bounds, j);
    assert bounds[j] <= bounds[high];
  }

  lemma QuotientBetween(lo: real, hi: real, ct: real, rate: real)
    requires ct > 0.0 && lo * ct <= rate <= hi * ct
    ensures lo <= rate / ct <= hi
  {
    var q := rate / ct;
    assert q * ct == rate;
    ProductPositive(lo - q, ct);
    ProductPositive(q - hi, ct);
    assert (lo - q) * ct == lo * ct - q * ct;
    assert (q - hi) * ct == q * ct - hi * ct;
  }

  lemma ProductPositive(a: real, b: real)
    ensures a > 0.0 && b > 0.0 ==> a * b > 0.0
  {
  }

  /** The lowest bucket from `b` up at which a range ends that passes, or `n`. */
  ghost function LowestGood(r: Rows, n: nat, need: real, success: real, b: nat): (c: nat)
    requires ValidRows(r, n) && b <= n
    ensures b <= c <= n && (c < n ==> Good(r, n, need, success, c))
    ensures forall d :: b <= d < c ==> !Good(r, n, need, success, d)
    decreases n - b
  {
    if b == n || Good(r, n, need, success, b) then b else LowestGood(r, n, need, success, b + 1)
  }

  /** What the scan reports: the lowest range that passed, and the first one that
      failed below it, or the rest. */
  ghost predicate Reported(r: Rows, n: nat, bounds: seq<real>, need: real, success: real, pass: EstimatorBucket,
                           fail: EstimatorBucket)
    requires ValidRows(r, n) && |bounds| == n && n > 0
  {
    && PassReported(r, n, bounds, need, success, LowestGood(r, n, need, success, 0), pass)
    && (Good(r, n, need, success, 0) ==> fail == NO_RANGE)
    && (!Good(r, n, need, success, 0) ==> FailReported(r, n, bounds, need, Near(r, n, need, success, 0), fail))
  }

  ghost predicate PassReported(r: Rows, n: nat, bounds: seq<real>, need: real, success: real, far: nat,
                               pass: EstimatorBucket)
    requires ValidRows(r, n) && |bounds| == n && far <= n
  {
    pass == if far == n then NO_RANGE else RangeOf(r, n, bounds, far, Near(r, n, need, success, far))
  }

  ghost predicate FailReported(r: Rows, n: nat, bounds: seq<real>, need: real, near: nat, fail: EstimatorBucket)
    requires ValidRows(r, n) && |bounds| == n && near < n
  {
    || (fail == RangeOf(r, n, bounds, 0, near) && forall c :: 0 <= c <= near ==> !Tested(r.ct, need, c))
    || exists lo :: 0 <= lo <= near && FirstFailed(r, n, bounds, need, lo, near, fail)
  }

  /** Where the scan says that the lowest range is which passed. */
  ghost predicate Found(r: Rows, n: nat, need: real, success: real, s: Scan)
    requires ValidRows(r, n)
  {
    var far := LowestGood(r, n, need, success, 0);
    && (s.foundAnswer <==> far < n)
    && (far < n ==> s.bestFar == far && s.bestNear == Near(r, n, need, success, far))
  }

  lemma ScanFound(r: Rows, n: nat, bounds: seq<real>, need: real, success: real, s: Scan)
    requires ValidRows(r, n) && |bounds| == n && n > 0 && Scanned(r, n, bounds, need, success, 0, s)
    ensures Found(r, n, need, success, s)
  {
    var far := LowestGood(r, n, need, success, 0);
    if s.foundAnswer {
      assert Good(r, n, need, success, s.bestFar);
    }
  }

  lemma ScanEnd(r: Rows, n: nat, bounds: seq<real>, need: real, success: real, s: Scan, pass: EstimatorBucket,
                fail: EstimatorBucket)
    requires ValidRows(r, n) && |bounds| == n && n > 0 && Scanned(r, n, bounds, need, success, 0, s)
    requires if s.foundAnswer
             then s.bestFar <= s.bestNear < n && pass == s.pass.(start := LowBound(bounds, s.bestFar),
                                                                 end := bounds[s.bestNear])
             else pass == s.pass
    requires fail == if s.passing && !s.newRange && s.curFar <= s.curNear < n
                     then EstimatorBucket(LowBound(bounds, s.curFar), bounds[s.curNear], s.nConf, s.totalNum,
                                          s.extraNum, s.failNum)
                     else s.fail
    ensures Reported(r, n, bounds, need, success, pass, fail)
  {
    ScanFound(r, n, bounds, need, success, s);
  }

  /** The ranges that passed and failed, once all buckets were added. */
  method ReportRanges(ghost r: Rows, bounds: seq<real>, ghost need: real, ghost success: real, s: Scan)
    returns (pass: EstimatorBucket, fail: EstimatorBucket)
    requires ValidRows(r, |bounds|) && bounds != [] && need > 0.0 && Scanned(r, |bounds|, bounds, need, success, 0, s)
    ensures Reported(r, |bounds|, bounds, need, success, pass, fail) && Found(r, |bounds|, need, success, s)
    ensures s.foundAnswer ==> s.bestFar <= s.bestNear < |bounds| && Sum(r.ct, s.bestFar, s.bestNear + 1) > 0.0
    ensures s.foundAnswer ==> pass.start == LowBound(bounds, s.bestFar) && pass.end == bounds[s.bestNear]
  {
    pass, fail := s.pass, s.fail;
    if s.foundAnswer {
      TestIsPositive(r, |bounds|, need, success, s.bestFar);
      pass := pass.(start := LowBound(bounds, s.bestFar), end := bounds[s.bestNear]);
    }
    if s.passing && !s.newRange {
      fail :=
        EstimatorBucket(LowBound(bounds, s.curFar), bounds[s.curNear], s.nConf, s.totalNum, s.extraNum, s.failNum);
    }
    ScanFound(r, |bounds|, bounds, need, success, s);
    ScanEnd(r, |bounds|, bounds, need, success, s, pass, fail);
  }
}
