/** Which rows of the circular buffer a scan reads, and when that is right. */
module RowScans {
  import opened TrackedCounts

  const U32 := 0x1_0000_0000

  /** The row that the scan reads for the height `confirms` below `height`, in
      32-bit arithmetic. */
  function ScanRow(height: nat, confirms: nat, bins: nat): (row: nat)
    requires bins > 0
    ensures row < bins
  {
    ((height - confirms) % U32) % bins
  }

  /** It is the row of that height, unless the height is below zero, and the
      number of rows does not divide two to the 32. */
  lemma RightRow(height: nat, confirms: nat, bins: nat)
    requires 0 < bins < U32 && height < U32 && confirms < bins
    ensures ScanRow(height, confirms, bins) == (height - confirms) % bins <==> confirms <= height || U32 % bins == 0
  {
    var d := height - confirms;
    if confirms <= height {
      assert d % U32 == d;
    } else {
      Wrapped(d);
      if U32 % bins == 0 {
        assert U32 == bins * (U32 / bins);
        SameRow(d, U32 / bins, bins);
      }
      if (d + U32) % bins == d % bins {
        var q := (d + U32) / bins - d / bins;
        assert U32 == bins * q;
        SameRow(0, q, bins);
      }
    }
  }

  lemma Wrapped(d: int)
    requires 0 - U32 < d < 0
    ensures d % U32 == d + U32
  {
    SameRow(d, 1, U32);
  }

  /** The row of a height below zero, that is within the last heights. */
  lemma RowBelowZero(height: nat, confirms: nat, bins: nat)
    requires height < confirms < bins
    ensures (height - confirms) % bins == height - confirms + bins > height
  {
    SameRow(height - confirms, 1, bins);
  }

  /** What the scan adds up of the rows for the heights from `confirms` below
      `height` on, in one bucket. */
  ghost function ScannedRows(recent: seq<seq<nat>>, bins: nat, height: nat, bucket: nat, confirms: nat): nat
    requires bins > 0 && |recent| == bins && forall i :: 0 <= i < bins ==> bucket < |recent[i]|
    decreases if bins >= confirms then bins - confirms else 0
  {
    if confirms >= bins then 0
    else recent[ScanRow(height, confirms, bins)][bucket] + ScannedRows(recent, bins, height, bucket, confirms + 1)
  }

  /** For no height below zero does the scan read a row that is in use. */
  predicate NoRowWraps(height: nat, bins: nat, target: nat)
    requires bins > 0
  {
    forall confirms :: target <= confirms < bins && height < confirms ==> ScanRow(height, confirms, bins) > height
  }

  /** So from the horizon's size up, and wherever the number of rows divides two
      to the 32. */
  lemma NothingWraps(height: nat, bins: nat, target: nat)
    requires 0 < bins < U32 && height < U32 && (bins <= height + 1 || U32 % bins == 0)
    ensures NoRowWraps(height, bins, target)
  {
    forall confirms | target <= confirms < bins && height < confirms
      ensures ScanRow(height, confirms, bins) > height
    {
      RightRow(height, confirms, bins);
      RowBelowZero(height, confirms, bins);
    }
  }

  /** With the 12 rows of the shortest horizon, one block up, the row of height
      one is read for the height -3. */
  lemma TwelveRowsWrap()
    ensures !NoRowWraps(1, 12, 1)
  {
    assert ScanRow(1, 4, 12) == 1 by {
      Wrapped(-3);
      assert (U32 - 3) % 12 == 1;
    }
  }

  /** The rows of heights below zero are empty. */
  lemma EmptyRow(recent: seq<seq<nat>>, old_: seq<nat>, bins: nat, count: nat, txs: map<Txid, Entry>, best: nat, b: nat,
                 row: nat)
    requires Tracks(recent, old_, bins, count, txs, best) && b < count && best < row < bins
    ensures recent[row][b] == 0
  {
    SameRow(row, -1, bins);
    NoneAt(txs, row - bins, b);
    assert recent[(row - bins) % bins][b] == |At(txs, row - bins, b)|;
  }

  lemma {:induction false} ScannedIsWaiting(recent: seq<seq<nat>>, old_: seq<nat>, bins: nat, count: nat,
                                            txs: map<Txid, Entry>, best: nat, b: nat, target: nat)
    requires Tracks(recent, old_, bins, count, txs, best) && b < count && bins < U32 && best < U32
    requires NoRowWraps(best, bins, target)
    ensures ScannedRows(recent, bins, best, b, target) == Waiting(recent, bins, best, b, target, bins)
    decreases if bins >= target then bins - target else 0
  {
    if target < bins {
      ScannedIsWaiting(recent, old_, bins, count, txs, best, b, target + 1);
      RightRow(best, target, bins);
      if best < target {
        RowBelowZero(best, target, bins);
        EmptyRow(recent, old_, bins, count, txs, best, b, ScanRow(best, target, bins));
        EmptyRow(recent, old_, bins, count, txs, best, b, (best - target) % bins);
      }
    }
  }

  /** Then the scan counts exactly the tracked transactions that have waited at
      least `target` blocks. */
  lemma ExtraIsWaiting(recent: seq<seq<nat>>, old_: seq<nat>, bins: nat, count: nat, txs: map<Txid, Entry>, best: nat,
                       b: nat, target: nat)
    requires Tracks(recent, old_, bins, count, txs, best) && b < count && target <= bins < U32 && best < U32
    requires NoRowWraps(best, bins, target)
    ensures ScannedRows(recent, bins, best, b, target) + old_[b] == |UpTo(txs, best - target, b)|
  {
    ScannedIsWaiting(recent, old_, bins, count, txs, best, b, target);
    WaitedAtLeast(recent, old_, bins, count, txs, best, b, target);
  }

  // --- and only then ---

  lemma {:induction false} ScannedHas(recent: seq<seq<nat>>, bins: nat, height: nat, b: nat, from: nat, confirms: nat)
    requires bins > 0 && |recent| == bins && forall i :: 0 <= i < bins ==> b < |recent[i]|
    requires from <= confirms < bins
    ensures ScannedRows(recent, bins, height, b, from) >= ScannedRows(recent, bins, height, b, confirms)
    ensures ScannedRows(recent, bins, height, b, confirms) >= recent[ScanRow(height, confirms, bins)][b]
    decreases confirms - from
  {
    if from < confirms {
      ScannedHas(recent, bins, height, b, from + 1, confirms);
    }
  }

  /** One transaction, of the height `h`, in the first bucket. */
  ghost function OneRow(bins: nat, count: nat, h: nat): seq<seq<nat>>
    requires h < bins && count > 0
  {
    seq(bins, r => seq(count, b => if r == h && b == 0 then 1 else 0))
  }

  ghost function OneTx(h: nat): map<Txid, Entry> {
    map[0 := Entry(h, 0)]
  }

  lemma OneAt(h: nat, h': int, b: nat)
    ensures |At(OneTx(h), h', b)| == if h' == h && b == 0 then 1 else 0
    ensures |UpTo(OneTx(h), h', b)| == if h <= h' && b == 0 then 1 else 0
  {
    assert At(OneTx(h), h', b) == if h' == h && b == 0 then {0} else {};
    assert UpTo(OneTx(h), h', b) == if h <= h' && b == 0 then {0} else {};
  }

  lemma OneInRow(bins: nat, count: nat, best: nat, h: nat, h': int, b: nat)
    requires count > 0 && h <= best < bins && InWindow(h', best, bins) && b < count
    ensures OneRow(bins, count, h)[h' % bins][b] == |At(OneTx(h), h', b)|
  {
    var r: nat := h' % bins;
    OneRowAt(bins, count, h, r, b);
    OneAt(h, h', b);
    if r == h {
      RowsDiffer(h', h, bins);
    }
  }

  lemma OneRowAt(bins: nat, count: nat, h: nat, r: nat, b: nat)
    requires h < bins && count > 0 && r < bins && b < count
    ensures OneRow(bins, count, h)[r][b] == if r == h && b == 0 then 1 else 0
  {
  }

  lemma OneTracked(bins: nat, count: nat, best: nat, h: nat)
    requires count > 0 && h <= best < bins
    ensures Tracks(OneRow(bins, count, h), seq(count, _ => 0), bins, count, OneTx(h), best)
  {
    var recent, old_: seq<nat> := OneRow(bins, count, h), seq(count, _ => 0);
    forall h': int, b: nat | InWindow(h', best, bins) && b < count
      ensures recent[h' % bins][b] == |At(OneTx(h), h', b)|
    {
      OneInRow(bins, count, best, h, h', b);
    }
    forall b: nat | b < count
      ensures old_[b] == |UpTo(OneTx(h), best - bins, b)|
    {
      OneAt(h, best - bins, b);
    }
  }

  /** A transaction whose row is read for a height below zero is counted once
      too often. */
  lemma CountedTooOften(bins: nat, count: nat, best: nat, target: nat, confirms: nat)
    requires count > 0 && bins < U32 && best < U32 && target <= confirms < bins && best < confirms
    requires ScanRow(best, confirms, bins) <= best
    ensures var h := ScanRow(best, confirms, bins);
            && Tracks(OneRow(bins, count, h), seq(count, _ => 0), bins, count, OneTx(h), best)
            && ScannedRows(OneRow(bins, count, h), bins, best, 0, target) > |UpTo(OneTx(h), best - target, 0)|
  {
    var h := ScanRow(best, confirms, bins);
    var recent := OneRow(bins, count, h);
    OneTracked(bins, count, best, h);
    OneAt(h, best - target, 0);
    assert recent[h][0] == 1;
    ScannedTwice(recent, bins, best, target, confirms);
  }

  lemma ScannedTwice(recent: seq<seq<nat>>, bins: nat, best: nat, target: nat, confirms: nat)
    requires 0 < bins < U32 && best < U32 && |recent| == bins && forall i :: 0 <= i < bins ==> 0 < |recent[i]|
    requires target <= confirms < bins && best < confirms && ScanRow(best, confirms, bins) <= best
    requires recent[ScanRow(best, confirms, bins)][0] == 1
    ensures ScannedRows(recent, bins, best, 0, target) > if ScanRow(best, confirms, bins) <= best - target then 1 else 0
  {
    var h := ScanRow(best, confirms, bins);
    ScannedHas(recent, bins, best, 0, target, confirms);
    if h <= best - target {
      OwnRow(best, h, bins);
      ScannedHas(recent, bins, best, 0, target, best - h);
      ScannedHas(recent, bins, best, 0, best - h + 1, confirms);
    }
  }

  lemma OwnRow(best: nat, h: nat, bins: nat)
    requires h <= best < bins && best < U32
    ensures ScanRow(best, best - h, bins) == h
  {
    assert best - (best - h) == h;
  }

  /** The scan's count is right, whatever is tracked. */
  ghost predicate ScanIsRight(bins: nat, count: nat, best: nat, target: nat)
  {
    forall recent: seq<seq<nat>>, old_: seq<nat>, txs: map<Txid, Entry>, b: nat ::
      Tracks(recent, old_, bins, count, txs, best) && b < count ==>
        ScannedRows(recent, bins, best, b, target) + old_[b] == |UpTo(txs, best - target, b)|
  }

  /** It is, exactly where no row that is in use is read for a height below
      zero. */
  lemma ScanIsRightIff(bins: nat, count: nat, best: nat, target: nat)
    requires 0 < bins < U32 && count > 0 && best < U32 && target <= bins
    ensures ScanIsRight(bins, count, best, target) <==> NoRowWraps(best, bins, target)
  {
    if NoRowWraps(best, bins, target) {
      forall recent: seq<seq<nat>>, old_: seq<nat>, txs: map<Txid, Entry>, b: nat
        | Tracks(recent, old_, bins, count, txs, best) && b < count
        ensures ScannedRows(recent, bins, best, b, target) + old_[b] == |UpTo(txs, best - target, b)|
      {
        ExtraIsWaiting(recent, old_, bins, count, txs, best, b, target);
      }
    } else {
      var confirms :| target <= confirms < bins && best < confirms && ScanRow(best, confirms, bins) <= best;
      CountedTooOften(bins, count, best, target, confirms);
      assert (seq<nat>(count, _ => 0))[0] == 0;
    }
  }
}
