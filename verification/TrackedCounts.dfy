/** A circular buffer and an overflow counter that stand for a set of tracked
    transactions: how many there are in each bucket, by entry height. */
module TrackedCounts {

  /** When a transaction entered the mempool, and its bucket. */
  datatype Entry = Entry(height: nat, bucket: nat)

  type Txid = nat

  ghost function At(txs: map<Txid, Entry>, height: int, bucket: nat): set<Txid> {
    set t | t in txs && txs[t].height == height && txs[t].bucket == bucket
  }

  /** Those that entered at or below `height`. */
  ghost function UpTo(txs: map<Txid, Entry>, height: int, bucket: nat): set<Txid> {
    set t | t in txs && txs[t].height <= height && txs[t].bucket == bucket
  }

  /** The last heights, one for each row of the buffer. */
  predicate InWindow(height: int, best: int, bins: nat) {
    best - bins < height <= best
  }

  ghost predicate Shaped(recent: seq<seq<nat>>, old_: seq<nat>, bins: nat, count: nat) {
    && bins > 0 && |recent| == bins && |old_| == count
    && forall i :: 0 <= i < bins ==> |recent[i]| == count
  }

  /** Row `height % bins` has the transactions of that height, for the last
      heights, and the counter all that are older. */
  ghost predicate Tracks(recent: seq<seq<nat>>, old_: seq<nat>, bins: nat, count: nat, txs: map<Txid, Entry>,
                         best: nat)
  {
    && Shaped(recent, old_, bins, count)
    && (forall t :: t in txs ==> txs[t].height <= best && txs[t].bucket < count)
    && (forall h: int, b: nat {:trigger At(txs, h, b)} :: InWindow(h, best, bins) && b < count ==>
          recent[h % bins][b] == |At(txs, h, b)|)
    && forall b: nat {:trigger UpTo(txs, best - bins, b)} :: b < count ==> old_[b] == |UpTo(txs, best - bins, b)|
  }

  lemma Multiple(n: int, q: int)
    requires n > 0
    ensures q >= 1 ==> n * q >= n
    ensures q <= -1 ==> n * q <= 0 - n
    ensures q >= 0 ==> n * q >= 0
  {
  }

  lemma RowsDiffer(a: int, b: int, bins: nat)
    requires bins > 0 && a % bins == b % bins && 0 - bins < a - b < bins
    ensures a == b
  {
    var q := a / bins - b / bins;
    assert a - b == bins * q;
    Multiple(bins, q);
  }

  lemma SameRow(x: int, q: int, bins: nat)
    requires bins > 0
    ensures (x + bins * q) % bins == x % bins
  {
    var y := x + bins * q;
    var d := y / bins - x / bins - q;
    assert bins * d == x % bins - y % bins;
    Multiple(bins, d);
  }

  /** Some height of the window has the row of any height. */
  lemma RowInWindow(height: int, best: int, bins: nat) returns (h: int)
    requires bins > 0
    ensures InWindow(h, best, bins) && h % bins == height % bins
    ensures height > best ==> h <= height - bins
  {
    var r, q := (best - height) % bins, (best - height) / bins;
    h := best - r;
    assert best - height == bins * q + r;
    SameRow(height, q, bins);
    Multiple(bins, q);
  }

  // --- a block ---

  ghost function Cleared(recent: seq<seq<nat>>, bins: nat, count: nat, height: nat): seq<seq<nat>>
    requires bins > 0 && |recent| == bins
  {
    recent[height % bins := seq(count, _ => 0)]
  }

  ghost function Added(old_: seq<nat>, row: seq<nat>): seq<nat>
    requires |row| == |old_|
  {
    seq(|old_|, j requires 0 <= j < |old_| => old_[j] + row[j])
  }

  /** No transaction is about to be forgotten: all that fall out of the window
      are in the row that is cleared. */
  ghost predicate OnlyRowFallsOut(txs: map<Txid, Entry>, best: nat, height: nat, bins: nat)
    requires bins > 0
  {
    forall t :: t in txs && best - bins < txs[t].height <= height - bins ==> txs[t].height % bins == height % bins
  }

  lemma NoneAt(txs: map<Txid, Entry>, h: int, b: nat)
    requires forall t :: t in txs ==> txs[t].height != h
    ensures At(txs, h, b) == {} && |At(txs, h, b)| == 0
  {
  }

  /** The rows after a block. */
  lemma RolledRow(recent: seq<seq<nat>>, old_: seq<nat>, bins: nat, count: nat, txs: map<Txid, Entry>, best: nat,
                  height: nat, h: int, b: nat)
    requires Tracks(recent, old_, bins, count, txs, best) && height > best && OnlyRowFallsOut(txs, best, height, bins)
    requires InWindow(h, height, bins) && b < count
    ensures Cleared(recent, bins, count, height)[h % bins][b] == |At(txs, h, b)|
  {
    if h == height {
      NoneAt(txs, h, b);
    } else {
      if h % bins == height % bins {
        RowsDiffer(h, height, bins);
      }
      if h > best {
        NoneAt(txs, h, b);
        var h0 := RowInWindow(h, best, bins);
        assert recent[h0 % bins][b] == |At(txs, h0, b)|;
        forall t | t in txs
          ensures txs[t].height != h0
        {
          assert best - bins < h0 <= height - bins;
        }
        NoneAt(txs, h0, b);
      } else {
        assert recent[h % bins][b] == |At(txs, h, b)|;
      }
    }
  }

  /** What the counter has to have after a block: those that it had, and those
      of the row that falls out. */
  lemma RolledOld(recent: seq<seq<nat>>, old_: seq<nat>, bins: nat, count: nat, txs: map<Txid, Entry>, best: nat,
                  height: nat, b: nat)
    requires Tracks(recent, old_, bins, count, txs, best) && height > best && b < count
    ensures var sum := old_[b] + recent[height % bins][b];
            && sum <= |UpTo(txs, height - bins, b)|
            && (OnlyRowFallsOut(txs, best, height, bins) ==> sum == |UpTo(txs, height - bins, b)|)
  {
    var h0 := RowInWindow(height, best, bins);
    var before, row, after := UpTo(txs, best - bins, b), At(txs, h0, b), UpTo(txs, height - bins, b);
    assert recent[h0 % bins][b] == |row|;
    assert old_[b] == |before|;
    assert before !! row && before + row <= after;
    assert |before + row| == |before| + |row|;
    AtMostAsMany(before + row, after);
    if OnlyRowFallsOut(txs, best, height, bins) {
      forall t | t in after
        ensures t in before + row
      {
        if best - bins < txs[t].height {
          RowsDiffer(txs[t].height, h0, bins);
        }
      }
      assert after == before + row;
    }
  }

  lemma AtMostAsMany(a: set<Txid>, b: set<Txid>)
    requires a <= b
    ensures |a| <= |b|
  {
    assert b == a + (b - a);
  }

  /** A transaction that falls out from another row is lost. */
  lemma LostWhereOtherRow(recent: seq<seq<nat>>, old_: seq<nat>, bins: nat, count: nat, txs: map<Txid, Entry>,
                          best: nat, height: nat, t: Txid)
    requires Tracks(recent, old_, bins, count, txs, best) && height > best && t in txs
    requires best - bins < txs[t].height <= height - bins && txs[t].height % bins != height % bins
    ensures old_[txs[t].bucket] + recent[height % bins][txs[t].bucket] < |UpTo(txs, height - bins, txs[t].bucket)|
  {
    var b := txs[t].bucket;
    var h0 := RowInWindow(height, best, bins);
    var before, row, after := UpTo(txs, best - bins, b), At(txs, h0, b), UpTo(txs, height - bins, b);
    assert recent[h0 % bins][b] == |row|;
    assert old_[b] == |before|;
    assert before !! row && t !in before + row && before + row + {t} <= after;
    assert |before + row + {t}| == |before| + |row| + 1;
    AtMostAsMany(before + row + {t}, after);
  }

  /** After a block, the buffer and the counter are still right exactly where
      only the cleared row falls out of the window. */
  lemma RolledIff(recent: seq<seq<nat>>, old_: seq<nat>, bins: nat, count: nat, txs: map<Txid, Entry>, best: nat,
                  height: nat)
    requires Tracks(recent, old_, bins, count, txs, best) && height > best
    ensures Tracks(Cleared(recent, bins, count, height), Added(old_, recent[height % bins]), bins, count, txs, height)
       <==> OnlyRowFallsOut(txs, best, height, bins)
  {
    var recent', old' := Cleared(recent, bins, count, height), Added(old_, recent[height % bins]);
    if OnlyRowFallsOut(txs, best, height, bins) {
      forall h: int, b: nat | InWindow(h, height, bins) && b < count
        ensures recent'[h % bins][b] == |At(txs, h, b)|
      {
        RolledRow(recent, old_, bins, count, txs, best, height, h, b);
      }
      forall b: nat | b < count
        ensures old'[b] == |UpTo(txs, height - bins, b)|
      {
        RolledOld(recent, old_, bins, count, txs, best, height, b);
      }
    } else {
      var t :| t in txs && best - bins < txs[t].height <= height - bins && txs[t].height % bins != height % bins;
      LostWhereOtherRow(recent, old_, bins, count, txs, best, height, t);
    }
  }

  /** So always where blocks come one height after another. */
  lemma NextHeightFallsOut(txs: map<Txid, Entry>, best: nat, bins: nat)
    requires bins > 0
    ensures OnlyRowFallsOut(txs, best, best + 1, bins)
  {
    SameRow(best + 1, -1, bins);
  }

  /** A transaction that entered at height 1 is lost to 12 rows by a block at
      height 20, which clears another row. */
  lemma SkippingLoses()
    ensures var row, txs := seq(12, i => if i == 1 then [1] else [0]), map[0 := Entry(1, 0)];
            && Tracks(row, [0], 12, 1, txs, 1) && !OnlyRowFallsOut(txs, 1, 20, 12)
            && !Tracks(Cleared(row, 12, 1, 20), Added([0], row[20 % 12]), 12, 1, txs, 20)
  {
    var row: seq<seq<nat>>, txs := seq(12, i => if i == 1 then [1] else [0]), map[0 := Entry(1, 0)];
    forall h: int, b: nat | InWindow(h, 1, 12) && b < 1
      ensures row[h % 12][b] == |At(txs, h, b)|
    {
      if h == 1 {
        assert At(txs, 1, 0) == {0};
      } else {
        NoneAt(txs, h, b);
        if h % 12 == 1 {
          RowsDiffer(h, 1, 12);
        }
      }
    }
    assert UpTo(txs, 1 - 12, 0) == {};
    assert 0 in txs;
    RolledIff(row, [0], 12, 1, txs, 1, 20);
  }

  // --- a row that counts too many ---

  /** Some row counts more than there are. */
  ghost predicate Overcounts(recent: seq<seq<nat>>, bins: nat, count: nat, txs: map<Txid, Entry>, best: nat)
    requires bins > 0 && |recent| == bins && forall i :: 0 <= i < bins ==> |recent[i]| == count
  {
    exists h: int, b: nat {:trigger At(txs, h, b)} ::
      InWindow(h, best, bins) && b < count && recent[h % bins][b] > |At(txs, h, b)|
  }

  lemma OvercountsIsWrong(recent: seq<seq<nat>>, old_: seq<nat>, bins: nat, count: nat, txs: map<Txid, Entry>,
                          best: nat)
    requires Shaped(recent, old_, bins, count) && Overcounts(recent, bins, count, txs, best)
    ensures !Tracks(recent, old_, bins, count, txs, best)
  {
    var h: int, b: nat :| InWindow(h, best, bins) && b < count && recent[h % bins][b] > |At(txs, h, b)|;
  }

  /** What falls out from another row than the one that is cleared stays counted
      in its row, which is now that of a height at which nothing entered. */
  lemma LostIsOvercounted(recent: seq<seq<nat>>, old_: seq<nat>, bins: nat, count: nat, txs: map<Txid, Entry>,
                          best: nat, height: nat)
    requires Tracks(recent, old_, bins, count, txs, best) && height > best && !OnlyRowFallsOut(txs, best, height, bins)
    ensures Overcounts(Cleared(recent, bins, count, height), bins, count, txs, height)
  {
    var t :| t in txs && best - bins < txs[t].height <= height - bins && txs[t].height % bins != height % bins;
    var e := txs[t];
    var h := RowInWindow(e.height, height, bins);
    if h <= best {
      RowsDiffer(h, e.height, bins);
    }
    NoneAt(txs, h, e.bucket);
    assert t in At(txs, e.height, e.bucket);
    assert recent[e.height % bins][e.bucket] == |At(txs, e.height, e.bucket)|;
  }

  /** A transaction that leaves takes what it counts for with it, and no more. */
  lemma StillOvercounts(recent: seq<seq<nat>>, bins: nat, count: nat, txs: map<Txid, Entry>, best: nat, t: Txid,
                        recent': seq<seq<nat>>)
    requires bins > 0 && |recent| == bins && forall i :: 0 <= i < bins ==> |recent[i]| == count
    requires Overcounts(recent, bins, count, txs, best) && t in txs && txs[t].bucket < count
    requires var e := txs[t];
             recent' == if 0 <= best - e.height < bins
                        then recent[e.height % bins := Lowered(recent[e.height % bins], e.bucket)] else recent
    ensures Overcounts(recent', bins, count, txs - {t}, best)
  {
    var e := txs[t];
    var h: int, b: nat :| InWindow(h, best, bins) && b < count && recent[h % bins][b] > |At(txs, h, b)|;
    AtWithout(txs, t, h, b);
    if 0 <= best - e.height < bins && e.height % bins == h % bins {
      RowsDiffer(e.height, h, bins);
    }
    assert recent'[h % bins][b] > |At(txs - {t}, h, b)|;
  }

  // --- a transaction ---

  function More(counts: seq<nat>, bucket: nat): seq<nat>
    requires bucket < |counts|
  {
    counts[bucket := counts[bucket] + 1]
  }

  function Less(counts: seq<nat>, bucket: nat): seq<nat>
    requires bucket < |counts| && counts[bucket] > 0
  {
    counts[bucket := counts[bucket] - 1]
  }

  function Lowered(counts: seq<nat>, bucket: nat): seq<nat>
    requires bucket < |counts|
  {
    if counts[bucket] > 0 then Less(counts, bucket) else counts
  }

  lemma AtWith(txs: map<Txid, Entry>, t: Txid, e: Entry, h: int, b: nat)
    requires t !in txs
    ensures At(txs[t := e], h, b) == if e.height == h && e.bucket == b then At(txs, h, b) + {t} else At(txs, h, b)
    ensures UpTo(txs[t := e], h, b) == if e.height <= h && e.bucket == b then UpTo(txs, h, b) + {t} else UpTo(txs, h, b)
  {
  }

  lemma AtWithout(txs: map<Txid, Entry>, t: Txid, h: int, b: nat)
    requires t in txs
    ensures At(txs - {t}, h, b) == At(txs, h, b) - {t} && UpTo(txs - {t}, h, b) == UpTo(txs, h, b) - {t}
    ensures t in At(txs, h, b) <==> txs[t].height == h && txs[t].bucket == b
    ensures t in UpTo(txs, h, b) <==> txs[t].height <= h && txs[t].bucket == b
  {
  }

  lemma EnteredRow(recent: seq<seq<nat>>, old_: seq<nat>, bins: nat, count: nat, txs: map<Txid, Entry>, best: nat,
                   t: Txid, bucket: nat, h: int, b: nat)
    requires Tracks(recent, old_, bins, count, txs, best) && t !in txs && bucket < count
    requires InWindow(h, best, bins) && b < count
    ensures recent[best % bins := More(recent[best % bins], bucket)][h % bins][b]
         == |At(txs[t := Entry(best, bucket)], h, b)|
  {
    AtWith(txs, t, Entry(best, bucket), h, b);
    assert recent[h % bins][b] == |At(txs, h, b)|;
    if h % bins == best % bins {
      RowsDiffer(h, best, bins);
    }
  }

  /** A transaction that enters now. */
  lemma Entered(recent: seq<seq<nat>>, old_: seq<nat>, bins: nat, count: nat, txs: map<Txid, Entry>, best: nat, t: Txid,
                bucket: nat)
    requires Tracks(recent, old_, bins, count, txs, best) && t !in txs && bucket < count
    ensures Tracks(recent[best % bins := More(recent[best % bins], bucket)], old_, bins, count,
                   txs[t := Entry(best, bucket)], best)
  {
    var txs', recent' := txs[t := Entry(best, bucket)], recent[best % bins := More(recent[best % bins], bucket)];
    forall h: int, b: nat | InWindow(h, best, bins) && b < count
      ensures recent'[h % bins][b] == |At(txs', h, b)|
    {
      EnteredRow(recent, old_, bins, count, txs, best, t, bucket, h, b);
    }
    forall b: nat | b < count
      ensures old_[b] == |UpTo(txs', best - bins, b)|
    {
      AtWith(txs, t, Entry(best, bucket), best - bins, b);
      assert old_[b] == |UpTo(txs, best - bins, b)|;
    }
  }

  /** A transaction that leaves: it is counted, so the count can go down. */
  lemma Left(recent: seq<seq<nat>>, old_: seq<nat>, bins: nat, count: nat, txs: map<Txid, Entry>, best: nat, t: Txid)
    requires Tracks(recent, old_, bins, count, txs, best) && t in txs
    ensures var e := txs[t];
            && (best - e.height >= bins ==>
                  old_[e.bucket] > 0 && Tracks(recent, Less(old_, e.bucket), bins, count, txs - {t}, best))
            && (best - e.height < bins ==>
                  recent[e.height % bins][e.bucket] > 0
                  && Tracks(recent[e.height % bins := Less(recent[e.height % bins], e.bucket)], old_, bins, count,
                            txs - {t}, best))
  {
    if best - txs[t].height >= bins {
      LeftOld(recent, old_, bins, count, txs, best, t);
    } else {
      LeftRecent(recent, old_, bins, count, txs, best, t);
    }
  }

  lemma StillInRow(recent: seq<seq<nat>>, old_: seq<nat>, bins: nat, count: nat, txs: map<Txid, Entry>, best: nat,
                   t: Txid, h: int, b: nat)
    requires Tracks(recent, old_, bins, count, txs, best) && t in txs && best - txs[t].height >= bins
    requires InWindow(h, best, bins) && b < count
    ensures recent[h % bins][b] == |At(txs - {t}, h, b)|
  {
    AtWithout(txs, t, h, b);
    assert recent[h % bins][b] == |At(txs, h, b)|;
  }

  lemma LeftOld(recent: seq<seq<nat>>, old_: seq<nat>, bins: nat, count: nat, txs: map<Txid, Entry>, best: nat, t: Txid)
    requires Tracks(recent, old_, bins, count, txs, best) && t in txs && best - txs[t].height >= bins
    ensures var e := txs[t];
            old_[e.bucket] > 0 && Tracks(recent, Less(old_, e.bucket), bins, count, txs - {t}, best)
  {
    var e, txs' := txs[t], txs - {t};
    assert old_[e.bucket] == |UpTo(txs, best - bins, e.bucket)| && t in UpTo(txs, best - bins, e.bucket);
    forall h: int, b: nat | InWindow(h, best, bins) && b < count
      ensures recent[h % bins][b] == |At(txs', h, b)|
    {
      StillInRow(recent, old_, bins, count, txs, best, t, h, b);
    }
    forall b: nat | b < count
      ensures Less(old_, e.bucket)[b] == |UpTo(txs', best - bins, b)|
    {
      AtWithout(txs, t, best - bins, b);
      assert old_[b] == |UpTo(txs, best - bins, b)|;
    }
  }

  lemma LeftRow(recent: seq<seq<nat>>, old_: seq<nat>, bins: nat, count: nat, txs: map<Txid, Entry>, best: nat, t: Txid,
                h: int, b: nat)
    requires Tracks(recent, old_, bins, count, txs, best) && t in txs && best - txs[t].height < bins
    requires InWindow(h, best, bins) && b < count
    ensures var e := txs[t];
            && recent[e.height % bins][e.bucket] > 0
            && recent[e.height % bins := Less(recent[e.height % bins], e.bucket)][h % bins][b] == |At(txs - {t}, h, b)|
  {
    var e := txs[t];
    assert recent[e.height % bins][e.bucket] == |At(txs, e.height, e.bucket)| && t in At(txs, e.height, e.bucket);
    AtWithout(txs, t, h, b);
    assert recent[h % bins][b] == |At(txs, h, b)|;
    if h % bins == e.height % bins {
      RowsDiffer(h, e.height, bins);
    }
  }

  lemma LeftRecent(recent: seq<seq<nat>>, old_: seq<nat>, bins: nat, count: nat, txs: map<Txid, Entry>, best: nat,
                   t: Txid)
    requires Tracks(recent, old_, bins, count, txs, best) && t in txs && best - txs[t].height < bins
    ensures var e := txs[t];
            && recent[e.height % bins][e.bucket] > 0
            && Tracks(recent[e.height % bins := Less(recent[e.height % bins], e.bucket)], old_, bins, count, txs - {t},
                      best)
  {
    var e, txs' := txs[t], txs - {t};
    assert recent[e.height % bins][e.bucket] == |At(txs, e.height, e.bucket)| && t in At(txs, e.height, e.bucket);
    var recent' := recent[e.height % bins := Less(recent[e.height % bins], e.bucket)];
    forall h: int, b: nat | InWindow(h, best, bins) && b < count
      ensures recent'[h % bins][b] == |At(txs', h, b)|
    {
      LeftRow(recent, old_, bins, count, txs, best, t, h, b);
    }
    forall b: nat | b < count
      ensures old_[b] == |UpTo(txs', best - bins, b)|
    {
      AtWithout(txs, t, best - bins, b);
      assert old_[b] == |UpTo(txs, best - bins, b)|;
    }
  }

  // --- the scan ---

  /** The counts in one bucket of the rows of the heights from `best - to + 1` up
      to `best - from`. */
  ghost function Waiting(recent: seq<seq<nat>>, bins: nat, best: nat, bucket: nat, from: nat, to: nat): nat
    requires bins > 0 && |recent| == bins && (forall i :: 0 <= i < bins ==> bucket < |recent[i]|)
    decreases if to >= from then to - from else 0
  {
    if from >= to then 0 else recent[(best - from) % bins][bucket] + Waiting(recent, bins, best, bucket, from + 1, to)
  }

  /** What the scan adds up is the transactions that have waited at least
      `target` blocks. */
  lemma {:induction false} WaitedAtLeast(recent: seq<seq<nat>>, old_: seq<nat>, bins: nat, count: nat,
                                         txs: map<Txid, Entry>, best: nat, bucket: nat, target: nat)
    requires Tracks(recent, old_, bins, count, txs, best) && bucket < count && target <= bins
    ensures Waiting(recent, bins, best, bucket, target, bins) + old_[bucket] == |UpTo(txs, best - target, bucket)|
    decreases bins - target
  {
    if target == bins {
      assert old_[bucket] == |UpTo(txs, best - bins, bucket)|;
    } else {
      WaitedAtLeast(recent, old_, bins, count, txs, best, bucket, target + 1);
      var row, older := At(txs, best - target, bucket), UpTo(txs, best - target - 1, bucket);
      assert recent[(best - target) % bins][bucket] == |row|;
      assert UpTo(txs, best - target, bucket) == row + older && row !! older;
    }
  }
}
