/** The feerates of a sorted list of groups, while a new one moves forward: past
    lower-feerate groups, or merging with them. */
module GroupRanks {
  import opened Diagrams
  import opened FeeRates
  import opened Sequences

  /** `rs` with its parts `k - 1` and `k` merged. */
  ghost function MergedRates(rs: seq<FeeFrac>, k: nat): seq<FeeFrac>
    requires 0 < k < |rs|
  {
    rs[..k - 1] + [rs[k].Plus(rs[k - 1])] + rs[k + 1..]
  }

  ghost function SwappedRates(rs: seq<FeeFrac>, k: nat): seq<FeeFrac>
    requires 0 < k < |rs|
  {
    rs[k - 1 := rs[k]][k := rs[k - 1]]
  }

  /** The part `k` has been moving forward in the sorted list `base`, and the
      part that it merged with last was `rho`. All others are in order, and all
      of them together are `whole`. */
  ghost predicate Ranks(rs: seq<FeeFrac>, k: nat, base: seq<FeeFrac>, rho: FeeFrac, whole: FeeFrac) {
    && k < |rs| && Positive(rs) && Sorted(RemoveAt(rs, k))
    && (rho == BOTTOM || rho.size > 0) && Absorbing(RemoveAt(rs, k), rs[k], rho, base)
    && (forall j :: 0 <= j < k ==> Cross(rho, rs[j]) <= 0)
    && (forall j :: k < j < |rs| ==> Cross(rs[k], rs[j]) > 0)
    && Total(RemoveAt(rs, k)).Plus(rs[k]) == whole
  }

  lemma TotalOfRemoved(rs: seq<FeeFrac>, k: nat)
    requires k < |rs|
    ensures Total(rs) == Total(RemoveAt(rs, k)).Plus(rs[k])
  {
    SplitOff(rs, k);
    TotalAround(rs[..k], rs[k], rs[k + 1..]);
  }

  lemma TotalAround(x: seq<FeeFrac>, r: FeeFrac, y: seq<FeeFrac>)
    ensures Total(x + [r] + y) == Total(x + y).Plus(r)
  {
    calc {
      Total(x + [r] + y);
      { TotalConcat(x + [r], y); }
      Total(x + [r]).Plus(Total(y));
      { TotalLast(x, r); }
      Total(x).Plus(r).Plus(Total(y));
      Total(x).Plus(Total(y)).Plus(r);
      { TotalConcat(x, y); }
      Total(x + y).Plus(r);
    }
  }

  lemma TotalLast(x: seq<FeeFrac>, r: FeeFrac)
    ensures Total(x + [r]) == Total(x).Plus(r)
  {
    TotalConcat(x, [r]);
    assert [r][1..] == [];
  }

  lemma NothingAbsorbed(base: seq<FeeFrac>, m: FeeFrac)
    ensures Absorbing(base, m, BOTTOM, base)
  {
  }

  lemma BottomBelow(base: seq<FeeFrac>)
    requires Positive(base)
    ensures forall j :: 0 <= j < |base| ==> Cross(BOTTOM, base[j]) <= 0
  {
    forall j | 0 <= j < |base|
      ensures Cross(BOTTOM, base[j]) <= 0
    {
      BelowAll(base[j]);
    }
  }

  lemma LastRemoved(base: seq<FeeFrac>, m: FeeFrac)
    requires Positive(base) && m.size > 0
    ensures Positive(base + [m]) && RemoveAt(base + [m], |base|) == base && (base + [m])[|base|] == m
    ensures forall j :: 0 <= j < |base| ==> (base + [m])[j] == base[j]
  {
  }

  lemma RanksStart(base: seq<FeeFrac>, m: FeeFrac)
    requires Positive(base) && Sorted(base) && m.size > 0
    ensures Ranks(base + [m], |base|, base, BOTTOM, Total(base).Plus(m))
  {
    NothingAbsorbed(base, m);
    BottomBelow(base);
    LastRemoved(base, m);
  }

  lemma BelowAll(r: FeeFrac)
    requires r.size > 0
    ensures Cross(BOTTOM, r) <= 0
  {
  }

  /** What the merged part is above: the part it merged with, and all that this
      one was above. */
  lemma MergedIsAbove(m: FeeFrac, d: FeeFrac, b: FeeFrac)
    requires m.size > 0 && d.size > 0 && b.size > 0 && Cross(m, d) > 0 && Cross(d, b) >= 0
    ensures Cross(m.Plus(d), b) > 0
  {
    CrossTrans(m, d, b);
    CrossPlus(m, d, b);
  }

  lemma RemovedAt(rs: seq<FeeFrac>, k: nat, j: nat)
    requires k < |rs| && j < |rs| && j != k
    ensures var j' := if j < k then j else j - 1; RemoveAt(rs, k)[j'] == rs[j]
  {
  }

  lemma Ordered(rs: seq<FeeFrac>, k: nat, i: nat, j: nat)
    requires k < |rs| && i < j < |rs| && i != k && j != k && Sorted(RemoveAt(rs, k))
    ensures Cross(rs[i], rs[j]) >= 0
  {
    RemovedAt(rs, k, i);
    RemovedAt(rs, k, j);
  }

  lemma MergedAbsorbs(rs: seq<FeeFrac>, k: nat, base: seq<FeeFrac>, rho: FeeFrac, whole: FeeFrac)
    requires Ranks(rs, k, base, rho, whole) && k > 0 && Cross(rs[k], rs[k - 1]) > 0
    ensures Absorbing(RemoveAt(MergedRates(rs, k), k - 1), rs[k].Plus(rs[k - 1]), rs[k - 1], base)
    ensures Total(RemoveAt(MergedRates(rs, k), k - 1)).Plus(rs[k].Plus(rs[k - 1])) == whole
    ensures Sorted(RemoveAt(MergedRates(rs, k), k - 1))
  {
    var d, m, apart := rs[k - 1], rs[k], RemoveAt(rs, k);
    MergedApart(rs, k);
    CrossFlip(m, d);
    Absorb(apart, m, rho, base, k - 1);
    TotalOfRemoved(apart, k - 1);
    SubSorted(apart, k - 1);
  }

  lemma MergedApart(rs: seq<FeeFrac>, k: nat)
    requires 0 < k < |rs|
    ensures RemoveAt(MergedRates(rs, k), k - 1) == RemoveAt(RemoveAt(rs, k), k - 1)
    ensures RemoveAt(rs, k)[k - 1] == rs[k - 1]
  {
  }

  lemma MergedBetween(rs: seq<FeeFrac>, k: nat)
    requires 0 < k < |rs| && Positive(rs) && Sorted(RemoveAt(rs, k)) && Cross(rs[k], rs[k - 1]) > 0
    ensures forall j :: 0 <= j < k - 1 ==> Cross(rs[k - 1], MergedRates(rs, k)[j]) <= 0
    ensures forall j :: k - 1 < j < |MergedRates(rs, k)| ==> Cross(rs[k].Plus(rs[k - 1]), MergedRates(rs, k)[j]) > 0
  {
    var d, m, rs' := rs[k - 1], rs[k], MergedRates(rs, k);
    forall j | 0 <= j < k - 1
      ensures Cross(d, rs'[j]) <= 0
    {
      Ordered(rs, k, j, k - 1);
      CrossFlip(d, rs[j]);
    }
    forall j | k - 1 < j < |rs'|
      ensures Cross(m.Plus(d), rs'[j]) > 0
    {
      Ordered(rs, k, k - 1, j + 1);
      MergedIsAbove(m, d, rs[j + 1]);
    }
  }

  lemma RanksMerge(rs: seq<FeeFrac>, k: nat, base: seq<FeeFrac>, rho: FeeFrac, whole: FeeFrac)
    requires Ranks(rs, k, base, rho, whole) && k > 0 && Cross(rs[k], rs[k - 1]) > 0
    ensures Ranks(MergedRates(rs, k), k - 1, base, rs[k - 1], whole)
  {
    assert MergedRates(rs, k)[k - 1] == rs[k].Plus(rs[k - 1]);
    MergedAbsorbs(rs, k, base, rho, whole);
    MergedBetween(rs, k);
  }

  lemma SubSorted(rs: seq<FeeFrac>, k: nat)
    requires Sorted(rs) && k < |rs|
    ensures Sorted(RemoveAt(rs, k))
  {
    var less := RemoveAt(rs, k);
    forall i, j | 0 <= i < j < |less|
      ensures Cross(less[i], less[j]) >= 0
    {
      assert less[i] == rs[if i < k then i else i + 1] && less[j] == rs[if j < k then j else j + 1];
    }
  }

  lemma RanksSwap(rs: seq<FeeFrac>, k: nat, base: seq<FeeFrac>, rho: FeeFrac, whole: FeeFrac)
    requires Ranks(rs, k, base, rho, whole) && k > 0 && Cross(rs[k], rs[k - 1]) > 0
    ensures Ranks(SwappedRates(rs, k), k - 1, base, rho, whole)
  {
    assert RemoveAt(SwappedRates(rs, k), k - 1) == RemoveAt(rs, k);
  }

  lemma SortedAgain(rs: seq<FeeFrac>, k: nat)
    requires k < |rs| && Positive(rs) && Sorted(RemoveAt(rs, k)) && (k > 0 ==> Cross(rs[k], rs[k - 1]) <= 0)
    requires forall j :: k < j < |rs| ==> Cross(rs[k], rs[j]) > 0
    ensures Sorted(rs)
  {
    forall i, j | 0 <= i < j < |rs|
      ensures Cross(rs[i], rs[j]) >= 0
    {
      if i != k && j != k {
        Ordered(rs, k, i, j);
      } else if j == k {
        CrossFlip(rs[k], rs[k - 1]);
        if i < k - 1 {
          Ordered(rs, k, i, k - 1);
          CrossTrans(rs[i], rs[k - 1], rs[k]);
        }
      }
    }
  }

  lemma PutBack(rs: seq<FeeFrac>, k: nat)
    requires k < |rs|
    ensures RemoveAt(rs, k)[..k] + [rs[k]] + RemoveAt(rs, k)[k..] == rs
  {
  }

  /** Once the part in front is no lower, the list is sorted again, and nothing
      is lost. */
  lemma RanksEnd(rs: seq<FeeFrac>, k: nat, base: seq<FeeFrac>, rho: FeeFrac, whole: FeeFrac,
                 prefix: seq<FeeFrac>, next: FeeFrac)
    requires Ranks(rs, k, base, rho, whole) && (k > 0 ==> Cross(rs[k], rs[k - 1]) <= 0)
    requires Covers(base, prefix) && whole == Total(prefix).Plus(next)
    ensures Sorted(rs) && Covers(rs, prefix + [next])
  {
    SortedAgain(rs, k);
    NothingLost(rs, k, base, rho, prefix, next);
  }

  lemma NothingLost(rs: seq<FeeFrac>, k: nat, base: seq<FeeFrac>, rho: FeeFrac, prefix: seq<FeeFrac>, next: FeeFrac)
    requires k < |rs| && Absorbing(RemoveAt(rs, k), rs[k], rho, base) && Covers(base, prefix)
    requires Total(RemoveAt(rs, k)).Plus(rs[k]) == Total(prefix).Plus(next)
    ensures Covers(rs, prefix + [next])
  {
    PutBack(rs, k);
    AbsorbedGain(RemoveAt(rs, k), rs[k], rho, base, k, prefix, next);
  }

  // --- upside down ---

  /** The parts backwards, with their fees negated. */
  ghost function Backwards(rs: seq<FeeFrac>): (b: seq<FeeFrac>)
    ensures |b| == |rs|
  {
    seq(|rs|, i requires 0 <= i < |rs| => rs[|rs| - 1 - i].Neg())
  }

  lemma LastPeak(rs: seq<FeeFrac>, r: FeeFrac, slope: FeeFrac)
    ensures Peak(rs + [r], slope)
         == if Peak(rs, slope) >= Cross(Total(rs + [r]), slope) then Peak(rs, slope) else Cross(Total(rs + [r]), slope)
  {
    PeakConcat(rs, [r], slope);
    TotalConcat(rs, [r]);
    assert [r][1..] == [];
    CrossPlus(Total(rs), r, slope);
    PeakIsGreatestPrefix(rs, slope, |rs|);
    assert rs[..|rs|] == rs;
  }

  /** Backwards, a diagram is as high as it is here above its end. */
  lemma {:induction false} BackwardsPeak(rs: seq<FeeFrac>, slope: FeeFrac)
    ensures Peak(Backwards(rs), slope.Neg()) == Peak(rs, slope) - Cross(Total(rs), slope)
    decreases |rs|
  {
    if rs != [] {
      var n := |rs| - 1;
      var rest, r := rs[..n], rs[n];
      assert rs == rest + [r];
      BackwardsPeak(rest, slope);
      LastPeak(rest, r, slope);
      TotalConcat(rest, [r]);
      assert [r][1..] == [];
      CrossPlus(Total(rest), r, slope);
      CrossNeg(r, slope);
      assert Backwards(rs)[0] == r.Neg() && Backwards(rs)[1..] == Backwards(rest);
    }
  }
}
