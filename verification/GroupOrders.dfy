/** The order that a list of groups stands for, while a new transaction finds its
    place in it. */
module GroupOrders {
  import opened FeeRates
  import opened GroupLists
  import opened GroupRanks
  import opened Sequences
  import C = Chunking
  import D = Diagrams

  /** Nothing depends on what comes after it. */
  ghost predicate KeepsDeps(deps: seq<set<nat>>, order: seq<nat>) {
    && (forall p :: 0 <= p < |order| ==> order[p] < |deps|)
    && forall p, q :: 0 <= p < q < |order| ==> order[q] !in deps[order[p]]
  }

  lemma FlattenAround(groups: seq<seq<nat>>, k: nat)
    requires 0 < k < |groups|
    ensures D.Flatten(groups) == D.Flatten(groups[..k - 1]) + groups[k - 1] + groups[k] + D.Flatten(groups[k + 1..])
  {
    PartsAround(groups, k);
    FlattenParts(groups[..k - 1], groups[k - 1], groups[k], groups[k + 1..]);
  }

  lemma PartsAround<T>(s: seq<T>, k: nat)
    requires 0 < k < |s|
    ensures s == s[..k - 1] + [s[k - 1]] + [s[k]] + s[k + 1..]
  {
  }

  lemma FlattenParts(x: seq<seq<nat>>, p: seq<nat>, m: seq<nat>, y: seq<seq<nat>>)
    ensures D.Flatten(x + [p] + [m] + y) == D.Flatten(x) + p + m + D.Flatten(y)
  {
    D.FlattenConcat(x + [p] + [m], y);
    D.FlattenAppend(x + [p], m);
    D.FlattenAppend(x, p);
  }

  lemma FlattenMerged(groups: seq<seq<nat>>, k: nat)
    requires 0 < k < |groups|
    ensures D.Flatten(MergedGroups(groups, k)) == D.Flatten(groups)
  {
    FlattenAround(groups, k);
    FlattenJoined(groups[..k - 1], groups[k - 1], groups[k], groups[k + 1..]);
  }

  lemma FlattenJoined(x: seq<seq<nat>>, p: seq<nat>, m: seq<nat>, y: seq<seq<nat>>)
    ensures D.Flatten(x + [p + m] + y) == D.Flatten(x) + p + m + D.Flatten(y)
  {
    D.FlattenConcat(x + [p + m], y);
    D.FlattenAppend(x, p + m);
    assert D.Flatten(x) + (p + m) == D.Flatten(x) + p + m;
  }

  lemma FlattenSwapped(groups: seq<seq<nat>>, k: nat)
    requires 0 < k < |groups|
    ensures D.Flatten(SwappedGroups(groups, k))
         == D.Flatten(groups[..k - 1]) + groups[k] + groups[k - 1] + D.Flatten(groups[k + 1..])
  {
    var more := SwappedGroups(groups, k);
    FlattenAround(more, k);
    assert more[..k - 1] == groups[..k - 1] && more[k + 1..] == groups[k + 1..];
  }

  /** Two neighbouring blocks can change places where the second does not depend
      on the first. */
  lemma SwapBlocks(deps: seq<set<nat>>, x: seq<nat>, p: seq<nat>, m: seq<nat>, y: seq<nat>)
    requires KeepsDeps(deps, x + p + m + y)
    requires forall i, j :: 0 <= i < |p| && 0 <= j < |m| && m[j] < |deps| ==> p[i] !in deps[m[j]]
    ensures KeepsDeps(deps, x + m + p + y)
  {
    var before, after := x + p + m + y, x + m + p + y;
    forall a | 0 <= a < |after|
      ensures after[a] == before[WasAt(|x|, |p|, |m|, a)]
    {
    }
    forall a, b | 0 <= a < b < |after|
      ensures after[a] < |deps| && after[b] !in deps[after[a]]
    {
      var a', b' := WasAt(|x|, |p|, |m|, a), WasAt(|x|, |p|, |m|, b);
      assert after[a] == before[a'] && after[b] == before[b'];
      if a' >= b' {
        assert after[a] == m[a - |x|] && after[b] == p[b - |x| - |m|];
      }
    }
  }

  /** Where a place in the order was, before two blocks of `p` and then `m`
      entries after the first `x` changed places. */
  ghost function WasAt(x: nat, p: nat, m: nat, a: nat): nat {
    if a < x || a >= x + m + p then a else if a < x + m then a + p else a - m
  }

  lemma InFlat(groups: seq<seq<nat>>, x: nat)
    ensures x in D.Flatten(groups) <==> exists j, i :: 0 <= j < |groups| && 0 <= i < |groups[j]| && groups[j][i] == x
    decreases |groups|
  {
    if groups != [] {
      InFlat(groups[1..], x);
      assert D.Flatten(groups) == groups[0] + D.Flatten(groups[1..]);
      if x in D.Flatten(groups[1..]) {
        var j, i :| 0 <= j < |groups[1..]| && 0 <= i < |groups[1..][j]| && groups[1..][j][i] == x;
        assert groups[j + 1][i] == x;
      }
      if exists j, i :: 0 <= j < |groups| && 0 <= i < |groups[j]| && groups[j][i] == x {
        var j, i :| 0 <= j < |groups| && 0 <= i < |groups[j]| && groups[j][i] == x;
        assert j > 0 ==> groups[1..][j - 1][i] == x;
      }
    }
  }

  /** `groups` are an order of the transactions of `seen`. */
  ghost predicate Arranged(v: Side, l: Lists, groups: seq<seq<nat>>, seen: seq<nat>) {
    && Holds(v, l, groups) && KeepsDeps(v.deps, D.Flatten(groups)) && C.Priced(v.fees, v.sizes, seen)
    && multiset(D.Flatten(groups)) == multiset(seen)
    && forall j :: 0 <= j < |groups| ==> C.Priced(v.fees, v.sizes, groups[j])
  }

  /** And they are sorted, and gain what every prefix of `seen` is worth. */
  ghost predicate Placed(v: Side, l: Lists, groups: seq<seq<nat>>, seen: seq<nat>) {
    && Arranged(v, l, groups, seen)
    && D.Sorted(GroupRates(v, groups)) && D.Covers(GroupRates(v, groups), C.Rates(v.fees, v.sizes, seen))
    && D.Total(GroupRates(v, groups)) == D.Total(C.Rates(v.fees, v.sizes, seen))
  }

  /** The group `k` has the last transaction of `seen`, and moves forward. */
  ghost predicate Placing(v: Side, l: Lists, groups: seq<seq<nat>>, k: nat, base: seq<FeeFrac>, rho: FeeFrac,
                          seen: seq<nat>)
  {
    && seen != [] && Arranged(v, l, groups, seen) && k < |groups|
    && Ranks(GroupRates(v, groups), k, base, rho, D.Total(C.Rates(v.fees, v.sizes, seen)))
  }

  lemma NotThere(groups: seq<seq<nat>>, seen: seq<nat>, x: nat)
    requires multiset(D.Flatten(groups)) == multiset(seen) && x !in seen
    ensures forall j, i :: 0 <= j < |groups| && 0 <= i < |groups[j]| ==> groups[j][i] != x
  {
    InFlat(groups, x);
    assert x !in multiset(seen);
  }

  lemma AppendKeepsDeps(deps: seq<set<nat>>, order: seq<nat>, seen: seq<nat>, x: nat)
    requires KeepsDeps(deps, order) && multiset(order) == multiset(seen) && KeepsDeps(deps, seen + [x])
    ensures KeepsDeps(deps, order + [x])
  {
    var all := seen + [x];
    assert all[|seen|] == x;
    forall p | 0 <= p < |order|
      ensures x !in deps[order[p]]
    {
      assert order[p] in multiset(order);
      assert order[p] in seen;
      var i :| 0 <= i < |seen| && seen[i] == order[p];
      assert all[i] == order[p];
    }
  }

  lemma PlaceStart(v: Side, l: Lists, groups: seq<seq<nat>>, seen: seq<nat>, x: nat)
    requires Placed(v, l, groups, seen) && C.Priced(v.fees, v.sizes, seen + [x]) && x !in seen && x < |v.fees|
    requires v.sizes[x] > 0
    requires KeepsDeps(v.deps, seen + [x])
    ensures Placing(v, AppendedLists(v, l, x), groups + [[x]], |groups|, GroupRates(v, groups), BOTTOM, seen + [x])
  {
    NotThere(groups, seen, x);
    Appended(v, l, groups, x);
    D.FlattenAppend(groups, [x]);
    AppendKeepsDeps(v.deps, D.Flatten(groups), seen, x);
    StartRates(v, l, groups, seen, x);
    GroupsPriced(v, l, groups);
    RanksStart(GroupRates(v, groups), FeeFrac(v.fees[x], v.sizes[x]));
  }

  lemma StartRates(v: Side, l: Lists, groups: seq<seq<nat>>, seen: seq<nat>, x: nat)
    requires Holds(v, l, groups) && C.Priced(v.fees, v.sizes, seen + [x]) && x < |v.fees| && v.sizes[x] > 0
    requires forall j :: 0 <= j < |groups| ==> C.Priced(v.fees, v.sizes, groups[j])
    ensures forall j :: 0 <= j < |groups + [[x]]| ==> C.Priced(v.fees, v.sizes, (groups + [[x]])[j])
    ensures GroupRates(v, groups + [[x]]) == GroupRates(v, groups) + [FeeFrac(v.fees[x], v.sizes[x])]
    ensures C.Priced(v.fees, v.sizes, seen)
    ensures D.Total(C.Rates(v.fees, v.sizes, seen + [x]))
         == D.Total(C.Rates(v.fees, v.sizes, seen)).Plus(FeeFrac(v.fees[x], v.sizes[x]))
  {
    var r := FeeFrac(v.fees[x], v.sizes[x]);
    assert [x][0] == x;
    assert C.Rates(v.fees, v.sizes, [x]) == [r] && [r][1..] == [];
    C.RatesAppend(v.fees, v.sizes, seen, x);
    D.TotalConcat(C.Rates(v.fees, v.sizes, seen), [r]);
  }

  lemma MergedGroupRates(v: Side, groups: seq<seq<nat>>, k: nat)
    requires 0 < k < |groups| && forall j :: 0 <= j < |groups| ==> C.Priced(v.fees, v.sizes, groups[j])
    ensures forall j :: 0 <= j < |MergedGroups(groups, k)| ==> C.Priced(v.fees, v.sizes, MergedGroups(groups, k)[j])
    ensures GroupRates(v, MergedGroups(groups, k)) == MergedRates(GroupRates(v, groups), k)
  {
    JoinedRate(v, groups[k - 1], groups[k]);
    assert MergedGroups(groups, k)[k - 1] == groups[k - 1] + groups[k];
  }

  lemma JoinedRate(v: Side, p: seq<nat>, m: seq<nat>)
    requires C.Priced(v.fees, v.sizes, p) && C.Priced(v.fees, v.sizes, m)
    ensures C.Priced(v.fees, v.sizes, p + m)
    ensures D.Total(C.Rates(v.fees, v.sizes, p + m))
         == D.Total(C.Rates(v.fees, v.sizes, p)).Plus(D.Total(C.Rates(v.fees, v.sizes, m)))
  {
    assert C.Rates(v.fees, v.sizes, p + m) == C.Rates(v.fees, v.sizes, p) + C.Rates(v.fees, v.sizes, m);
    D.TotalConcat(C.Rates(v.fees, v.sizes, p), C.Rates(v.fees, v.sizes, m));
  }

  lemma PlaceMerge(v: Side, l: Lists, groups: seq<seq<nat>>, k: nat, base: seq<FeeFrac>, rho: FeeFrac, seen: seq<nat>)
    requires Placing(v, l, groups, k, base, rho, seen) && k > 0
    requires Cross(GroupRates(v, groups)[k], GroupRates(v, groups)[k - 1]) > 0
    ensures Last(groups[k]) < |l.prevTx| && Last(groups[k - 1]) < |l.prevTx| && l.firstTx[Last(groups[k])] < |l.prevTx|
    ensures Placing(v, MergedLists(l, Last(groups[k]), Last(groups[k - 1])), MergedGroups(groups, k), k - 1, base,
                    GroupRates(v, groups)[k - 1], seen)
  {
    Merged(v, l, groups, k);
    FlattenMerged(groups, k);
    MergedGroupRates(v, groups, k);
    RanksMerge(GroupRates(v, groups), k, base, rho, D.Total(C.Rates(v.fees, v.sizes, seen)));
  }

  lemma SwappedOrder(v: Side, groups: seq<seq<nat>>, k: nat)
    requires 0 < k < |groups| && KeepsDeps(v.deps, D.Flatten(groups))
    requires forall i :: 0 <= i < |groups[k]| ==> groups[k][i] < |v.deps|
    requires DepsOf(v.deps, groups[k]) !! Elements(groups[k - 1])
    ensures KeepsDeps(v.deps, D.Flatten(SwappedGroups(groups, k)))
    ensures multiset(D.Flatten(SwappedGroups(groups, k))) == multiset(D.Flatten(groups))
  {
    FlattenAround(groups, k);
    FlattenSwapped(groups, k);
    var p, m := groups[k - 1], groups[k];
    forall i, j | 0 <= i < |p| && 0 <= j < |m|
      ensures p[i] !in v.deps[m[j]]
    {
      assert p[i] in Elements(p);
      assert p[i] !in DepsOf(v.deps, m);
    }
    SwapBlocks(v.deps, D.Flatten(groups[..k - 1]), p, m, D.Flatten(groups[k + 1..]));
  }

  lemma SwappedGroupRates(v: Side, groups: seq<seq<nat>>, k: nat)
    requires 0 < k < |groups| && forall j :: 0 <= j < |groups| ==> C.Priced(v.fees, v.sizes, groups[j])
    ensures forall j :: 0 <= j < |SwappedGroups(groups, k)| ==> C.Priced(v.fees, v.sizes, SwappedGroups(groups, k)[j])
    ensures GroupRates(v, SwappedGroups(groups, k)) == SwappedRates(GroupRates(v, groups), k)
  {
  }

  lemma PlaceSwap(v: Side, l: Lists, groups: seq<seq<nat>>, k: nat, base: seq<FeeFrac>, rho: FeeFrac, seen: seq<nat>)
    requires Placing(v, l, groups, k, base, rho, seen) && k > 0
    requires Cross(GroupRates(v, groups)[k], GroupRates(v, groups)[k - 1]) > 0
    requires forall i :: 0 <= i < |groups[k]| ==> groups[k][i] < |v.deps|
    requires DepsOf(v.deps, groups[k]) !! Elements(groups[k - 1])
    ensures SlotAt(groups, k) < |l.prevTx| && SlotAt(groups, k - 1) < |l.prevTx| && SlotAt(groups, k + 1) < |l.prevTx|
    ensures Placing(v, SwappedLists(l, SlotAt(groups, k), SlotAt(groups, k - 1), SlotAt(groups, k + 1)),
                    SwappedGroups(groups, k), k - 1, base, rho, seen)
  {
    Swapped(v, l, groups, k);
    SwappedOrder(v, groups, k);
    SwappedGroupRates(v, groups, k);
    RanksSwap(GroupRates(v, groups), k, base, rho, D.Total(C.Rates(v.fees, v.sizes, seen)));
  }

  lemma PlaceEnd(v: Side, l: Lists, groups: seq<seq<nat>>, k: nat, base: seq<FeeFrac>, rho: FeeFrac, seen: seq<nat>,
                 x: nat)
    requires Placing(v, l, groups, k, base, rho, seen + [x]) && C.Priced(v.fees, v.sizes, seen) && x < |v.fees|
    requires v.sizes[x] > 0
    requires D.Covers(base, C.Rates(v.fees, v.sizes, seen))
    requires k > 0 ==> Cross(GroupRates(v, groups)[k], GroupRates(v, groups)[k - 1]) <= 0
    ensures Placed(v, l, groups, seen + [x])
  {
    var r, rs := FeeFrac(v.fees[x], v.sizes[x]), GroupRates(v, groups);
    StartRates(v, l, groups, seen, x);
    C.RatesAppend(v.fees, v.sizes, seen, x);
    TotalOfRemoved(rs, k);
    RanksEnd(rs, k, base, rho, D.Total(C.Rates(v.fees, v.sizes, seen + [x])), C.Rates(v.fees, v.sizes, seen), r);
  }

  lemma {:induction false} PartsOfGroups(v: Side, groups: seq<seq<nat>>) returns (parts: seq<seq<FeeFrac>>)
    requires forall j :: 0 <= j < |groups| ==> C.Priced(v.fees, v.sizes, groups[j])
    requires |v.fees| == |v.sizes|
    ensures C.Priced(v.fees, v.sizes, D.Flatten(groups))
    ensures D.Totals(parts) == GroupRates(v, groups)
    ensures D.Flatten(parts) == C.Rates(v.fees, v.sizes, D.Flatten(groups))
    decreases |groups|
  {
    if groups == [] {
      parts := [];
    } else {
      var rest := PartsOfGroups(v, groups[1..]);
      var first := C.Rates(v.fees, v.sizes, groups[0]);
      parts := [first] + rest;
      assert parts[1..] == rest;
      assert forall i :: 1 <= i < |parts| ==> D.Totals(parts)[i] == D.Totals(rest)[i - 1];
      assert D.Flatten(groups) == groups[0] + D.Flatten(groups[1..]);
      assert D.Flatten(parts) == first + D.Flatten(rest);
    }
  }

  /** One after another, the groups rise as high as what they were made from. */
  lemma PlacedPeak(v: Side, l: Lists, groups: seq<seq<nat>>, seen: seq<nat>, slope: FeeFrac)
    requires Placed(v, l, groups, seen) && |v.fees| == |v.sizes| && slope.size > 0
    ensures C.Priced(v.fees, v.sizes, D.Flatten(groups))
    ensures D.Peak(C.Rates(v.fees, v.sizes, D.Flatten(groups)), slope) >= D.Peak(C.Rates(v.fees, v.sizes, seen), slope)
    ensures D.Total(C.Rates(v.fees, v.sizes, D.Flatten(groups))) == D.Total(C.Rates(v.fees, v.sizes, seen))
  {
    var parts := PartsOfGroups(v, groups);
    D.PeakOfParts(parts, slope);
    D.TotalOfParts(parts);
    GroupsPriced(v, l, groups);
    D.SortedPeak(GroupRates(v, groups), slope);
    assert D.CoversAlong(GroupRates(v, groups), C.Rates(v.fees, v.sizes, seen), slope);
  }
}
