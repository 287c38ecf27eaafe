/** Lists of groups of transactions kept in arrays: a group is known by the slot
    of its last transaction, and slot 0 is the sentinel at the end of the list. */
module GroupLists {
  import opened FeeRates
  import opened GroupRanks
  import opened Sequences
  import C = Chunking
  import D = Diagrams

  /** What one pass reads of a cluster: the dependencies that it keeps, and the
      fees that it orders by. */
  datatype Side = Side(deps: seq<set<nat>>, fees: seq<int>, sizes: seq<int>)

  /** The arrays, by slot: the transaction before, the first transaction of the
      group, the group before, and the group's transactions, dependencies, fee
      and size. */
  datatype Lists = Lists(
    prevTx: seq<nat>,
    firstTx: seq<nat>,
    prevGroup: seq<nat>,
    group: seq<set<nat>>,
    deps: seq<set<nat>>,
    fees: seq<int>,
    sizes: seq<int>)

  ghost predicate OfLength(l: Lists, n: nat) {
    && |l.prevTx| == n && |l.firstTx| == n && |l.prevGroup| == n && |l.group| == n && |l.deps| == n
    && |l.fees| == n && |l.sizes| == n
  }

  ghost function Last(seg: seq<nat>): nat
    requires seg != []
  {
    seg[|seg| - 1] + 1
  }

  /** Two places with the same transaction. */
  ghost predicate Twice(groups: seq<seq<nat>>, j: nat, i: nat, j': nat, i': nat)
    requires j < |groups| && i < |groups[j]| && j' < |groups| && i' < |groups[j']|
  {
    groups[j][i] == groups[j'][i']
  }

  /** All groups have transactions, and no transaction is there twice. */
  ghost predicate Apart(groups: seq<seq<nat>>) {
    && (forall j :: 0 <= j < |groups| ==> groups[j] != [])
    && forall j, i, j', i' {:trigger Twice(groups, j, i, j', i')} ::
         (0 <= j < |groups| && 0 <= i < |groups[j]| && 0 <= j' < |groups| && 0 <= i' < |groups[j']|
          && Twice(groups, j, i, j', i')) ==> j == j' && i == i'
  }

  lemma NotTwice(groups: seq<seq<nat>>, j: nat, i: nat, j': nat, i': nat)
    requires Apart(groups) && j < |groups| && i < |groups[j]| && j' < |groups| && i' < |groups[j']|
    ensures groups[j][i] == groups[j'][i'] ==> j == j' && i == i'
  {
    assert Twice(groups, j, i, j', i') <==> groups[j][i] == groups[j'][i'];
  }

  /** The slot of the group `j`, or the sentinel after the last one. */
  ghost function SlotAt(groups: seq<seq<nat>>, j: nat): nat
    requires j <= |groups| && Apart(groups)
  {
    if j == |groups| then 0 else Last(groups[j])
  }

  lemma SlotsApart(groups: seq<seq<nat>>, i: nat, j: nat)
    requires Apart(groups) && i <= |groups| && j <= |groups|
    ensures SlotAt(groups, i) == SlotAt(groups, j) ==> i == j
  {
    if i < |groups| && j < |groups| {
      NotTwice(groups, i, |groups[i]| - 1, j, |groups[j]| - 1);
    }
  }

  ghost function SlotBefore(groups: seq<seq<nat>>, j: nat): nat
    requires j <= |groups| && Apart(groups)
  {
    if j == 0 then 0 else Last(groups[j - 1])
  }

  /** From each group, and from the sentinel, one gets to the group before. */
  ghost predicate Linked(prevGroup: seq<nat>, groups: seq<seq<nat>>)
    requires Apart(groups)
  {
    forall j :: 0 <= j <= |groups| ==>
      SlotAt(groups, j) < |prevGroup| && prevGroup[SlotAt(groups, j)] == SlotBefore(groups, j)
  }

  /** Everything that the transactions of `seg` depend on. */
  ghost function DepsOf(deps: seq<set<nat>>, seg: seq<nat>): set<nat>
    requires forall i :: 0 <= i < |seg| ==> seg[i] < |deps|
  {
    set i, d | 0 <= i < |seg| && d in deps[seg[i]] :: d
  }

  /** From each transaction one gets to the one before, and from the first to
      nothing. */
  ghost predicate Chained(prevTx: seq<nat>, seg: seq<nat>) {
    forall i :: 0 <= i < |seg| ==> seg[i] + 1 < |prevTx| && prevTx[seg[i] + 1] == if i == 0 then 0 else seg[i - 1] + 1
  }

  /** What the slot of a group holds. */
  ghost predicate Described(v: Side, l: Lists, seg: seq<nat>)
    requires OfLength(l, |v.fees| + 1) && |v.deps| == |v.fees|
  {
    && seg != [] && C.Priced(v.fees, v.sizes, seg)
    && l.firstTx[Last(seg)] == seg[0] + 1
    && l.group[Last(seg)] == Elements(seg)
    && l.deps[Last(seg)] == DepsOf(v.deps, seg)
    && FeeFrac(l.fees[Last(seg)], l.sizes[Last(seg)]) == D.Total(C.Rates(v.fees, v.sizes, seg))
  }

  /** The arrays hold the list `groups`. */
  ghost predicate Holds(v: Side, l: Lists, groups: seq<seq<nat>>) {
    && OfLength(l, |v.fees| + 1) && |v.deps| == |v.fees| && Apart(groups) && Linked(l.prevGroup, groups)
    && forall j :: 0 <= j < |groups| ==> Described(v, l, groups[j]) && Chained(l.prevTx, groups[j])
  }

  ghost function GroupRates(v: Side, groups: seq<seq<nat>>): (rs: seq<FeeFrac>)
    requires forall j :: 0 <= j < |groups| ==> C.Priced(v.fees, v.sizes, groups[j])
    ensures |rs| == |groups|
  {
    seq(|groups|, j requires 0 <= j < |groups| => D.Total(C.Rates(v.fees, v.sizes, groups[j])))
  }

  lemma GroupsPriced(v: Side, l: Lists, groups: seq<seq<nat>>)
    requires Holds(v, l, groups)
    ensures forall j :: 0 <= j < |groups| ==> C.Priced(v.fees, v.sizes, groups[j])
    ensures D.Positive(GroupRates(v, groups))
  {
    forall j | 0 <= j < |groups|
      ensures C.Priced(v.fees, v.sizes, groups[j]) && D.Total(C.Rates(v.fees, v.sizes, groups[j])).size > 0
    {
      assert Described(v, l, groups[j]);
      D.TotalPositive(C.Rates(v.fees, v.sizes, groups[j]));
    }
  }

  // --- a new group at the end ---

  ghost function AppendedLists(v: Side, l: Lists, x: nat): Lists
    requires OfLength(l, |v.fees| + 1) && |v.deps| == |v.fees| && |v.sizes| == |v.fees| && x < |v.fees|
  {
    var cur := x + 1;
    Lists(l.prevTx[cur := 0], l.firstTx[cur := cur], l.prevGroup[cur := l.prevGroup[0]][0 := cur], l.group[cur := {x}],
          l.deps[cur := v.deps[x]], l.fees[cur := v.fees[x]], l.sizes[cur := v.sizes[x]])
  }

  lemma NewGroup(v: Side, l: Lists, x: nat)
    requires OfLength(l, |v.fees| + 1) && |v.deps| == |v.fees| && |v.sizes| == |v.fees| && x < |v.fees|
    requires v.sizes[x] > 0
    ensures Described(v, AppendedLists(v, l, x), [x]) && Chained(AppendedLists(v, l, x).prevTx, [x])
  {
    var r := FeeFrac(v.fees[x], v.sizes[x]);
    assert C.Rates(v.fees, v.sizes, [x]) == [r] && [r][1..] == [];
    assert [x][0] == x;
    assert forall d :: d in v.deps[x] ==> d in DepsOf(v.deps, [x]);
    assert DepsOf(v.deps, [x]) == v.deps[x];
  }

  /** A group is not touched by writes to other slots. */
  lemma Untouched(v: Side, l: Lists, l': Lists, seg: seq<nat>)
    requires OfLength(l, |v.fees| + 1) && OfLength(l', |v.fees| + 1) && |v.deps| == |v.fees|
    requires Described(v, l, seg) && Chained(l.prevTx, seg)
    requires var s := Last(seg);
             && l'.firstTx[s] == l.firstTx[s] && l'.group[s] == l.group[s] && l'.deps[s] == l.deps[s]
             && l'.fees[s] == l.fees[s] && l'.sizes[s] == l.sizes[s]
    requires forall i :: 0 <= i < |seg| ==> l'.prevTx[seg[i] + 1] == l.prevTx[seg[i] + 1]
    ensures Described(v, l', seg) && Chained(l'.prevTx, seg)
  {
  }

  lemma AppendedApart(groups: seq<seq<nat>>, x: nat)
    requires Apart(groups) && forall j, i :: 0 <= j < |groups| && 0 <= i < |groups[j]| ==> groups[j][i] != x
    ensures Apart(groups + [[x]])
  {
    var more := groups + [[x]];
    forall j, i, j', i' | 0 <= j < |more| && 0 <= i < |more[j]| && 0 <= j' < |more| && 0 <= i' < |more[j']| &&
        Twice(more, j, i, j', i')
      ensures j == j' && i == i'
    {
      if j < |groups| && j' < |groups| {
        NotTwice(groups, j, i, j', i');
      }
    }
  }

  lemma AppendedLinkAt(prevGroup: seq<nat>, groups: seq<seq<nat>>, x: nat, j: nat)
    requires Apart(groups) && Apart(groups + [[x]]) && Linked(prevGroup, groups) && x + 1 < |prevGroup| && j < |groups|
    ensures SlotAt(groups + [[x]], j) < |prevGroup|
    ensures prevGroup[x + 1 := prevGroup[0]][0 := x + 1][SlotAt(groups + [[x]], j)] == SlotBefore(groups + [[x]], j)
  {
    var more := groups + [[x]];
    SlotsApart(more, j, |groups|);
    assert more[j] == groups[j] && more[|groups|] == [x];
    assert j > 0 ==> more[j - 1] == groups[j - 1];
    assert prevGroup[SlotAt(groups, j)] == SlotBefore(groups, j);
  }

  lemma AppendedLinked(prevGroup: seq<nat>, groups: seq<seq<nat>>, x: nat)
    requires Apart(groups) && Apart(groups + [[x]]) && Linked(prevGroup, groups) && x + 1 < |prevGroup|
    ensures Linked(prevGroup[x + 1 := prevGroup[0]][0 := x + 1], groups + [[x]])
  {
    var more := groups + [[x]];
    assert prevGroup[SlotAt(groups, |groups|)] == SlotBefore(groups, |groups|);
    assert more[|groups|] == [x] && (groups != [] ==> more[|groups| - 1] == groups[|groups| - 1]);
    forall j | 0 <= j < |groups|
      ensures SlotAt(more, j) < |prevGroup|
      ensures prevGroup[x + 1 := prevGroup[0]][0 := x + 1][SlotAt(more, j)] == SlotBefore(more, j)
    {
      AppendedLinkAt(prevGroup, groups, x, j);
    }
  }

  lemma Appended(v: Side, l: Lists, groups: seq<seq<nat>>, x: nat)
    requires Holds(v, l, groups) && |v.sizes| == |v.fees| && x < |v.fees| && v.sizes[x] > 0
    requires forall j, i :: 0 <= j < |groups| && 0 <= i < |groups[j]| ==> groups[j][i] != x
    ensures Holds(v, AppendedLists(v, l, x), groups + [[x]])
  {
    var l', more := AppendedLists(v, l, x), groups + [[x]];
    AppendedApart(groups, x);
    AppendedLinked(l.prevGroup, groups, x);
    NewGroup(v, l, x);
    forall j | 0 <= j < |groups|
      ensures Described(v, l', more[j]) && Chained(l'.prevTx, more[j])
    {
      Untouched(v, l, l', groups[j]);
    }
  }

  // --- merging with the group in front ---

  ghost function MergedGroups(groups: seq<seq<nat>>, k: nat): seq<seq<nat>>
    requires 0 < k < |groups|
  {
    groups[..k - 1] + [groups[k - 1] + groups[k]] + groups[k + 1..]
  }

  ghost function MergedLists(l: Lists, cur: nat, prev: nat): Lists
    requires OfLength(l, |l.prevTx|) && cur < |l.prevTx| && prev < |l.prevTx| && l.firstTx[cur] < |l.prevTx|
  {
    Lists(l.prevTx[l.firstTx[cur] := prev], l.firstTx[cur := l.firstTx[prev]], l.prevGroup[cur := l.prevGroup[prev]],
          l.group[cur := l.group[cur] + l.group[prev]], l.deps[cur := l.deps[cur] + l.deps[prev]],
          l.fees[cur := l.fees[cur] + l.fees[prev]], l.sizes[cur := l.sizes[cur] + l.sizes[prev]])
  }

  /** Where an entry of the merged list was before. */
  ghost function OldPlace(groups: seq<seq<nat>>, k: nat, j: nat, i: nat): (nat, nat)
    requires 0 < k < |groups|
  {
    if j < k - 1 then (j, i)
    else if j > k - 1 then (j + 1, i)
    else if i < |groups[k - 1]| then (k - 1, i) else (k, i - |groups[k - 1]|)
  }

  lemma MergedPlace(groups: seq<seq<nat>>, k: nat, j: nat, i: nat)
    requires 0 < k < |groups| && j < |MergedGroups(groups, k)| && i < |MergedGroups(groups, k)[j]|
    ensures var (j', i') := OldPlace(groups, k, j, i);
            j' < |groups| && i' < |groups[j']| && MergedGroups(groups, k)[j][i] == groups[j'][i']
  {
  }

  lemma MergedApart(groups: seq<seq<nat>>, k: nat)
    requires Apart(groups) && 0 < k < |groups|
    ensures Apart(MergedGroups(groups, k))
  {
    var more := MergedGroups(groups, k);
    forall j, i, j', i' | 0 <= j < |more| && 0 <= i < |more[j]| && 0 <= j' < |more| && 0 <= i' < |more[j']| &&
        Twice(more, j, i, j', i')
      ensures j == j' && i == i'
    {
      MergedPlace(groups, k, j, i);
      MergedPlace(groups, k, j', i');
      var (a, b) := OldPlace(groups, k, j, i);
      var (a', b') := OldPlace(groups, k, j', i');
      NotTwice(groups, a, b, a', b');
    }
  }

  lemma MergedLinked(prevGroup: seq<nat>, groups: seq<seq<nat>>, k: nat)
    requires Apart(groups) && 0 < k < |groups| && Apart(MergedGroups(groups, k)) && Linked(prevGroup, groups)
    ensures Last(groups[k]) < |prevGroup| && Last(groups[k - 1]) < |prevGroup|
    ensures Linked(prevGroup[Last(groups[k]) := prevGroup[Last(groups[k - 1])]], MergedGroups(groups, k))
  {
    var more := MergedGroups(groups, k);
    assert prevGroup[SlotAt(groups, k)] == SlotBefore(groups, k);
    assert prevGroup[SlotAt(groups, k - 1)] == SlotBefore(groups, k - 1);
    assert Last(more[k - 1]) == Last(groups[k]);
    forall j | 0 <= j <= |more|
      ensures SlotAt(more, j) == SlotAt(groups, if j < k - 1 then j else j + 1)
      ensures SlotBefore(more, j) == if j < k then SlotBefore(groups, j) else SlotBefore(groups, j + 1)
      ensures SlotAt(more, j) == Last(groups[k]) ==> j == k - 1
    {
      assert j < |more| && j != k - 1 ==> more[j] == groups[if j < k - 1 then j else j + 1];
      SlotsApart(groups, if j < k - 1 then j else j + 1, k);
    }
    forall j | 0 <= j <= |more|
      ensures SlotAt(more, j) < |prevGroup|
      ensures prevGroup[Last(groups[k]) := prevGroup[Last(groups[k - 1])]][SlotAt(more, j)] == SlotBefore(more, j)
    {
      var i := if j < k - 1 then j else j + 1;
      assert prevGroup[SlotAt(groups, i)] == SlotBefore(groups, i);
    }
  }

  lemma DepsOfConcat(deps: seq<set<nat>>, a: seq<nat>, b: seq<nat>)
    requires forall i :: 0 <= i < |a| ==> a[i] < |deps|
    requires forall i :: 0 <= i < |b| ==> b[i] < |deps|
    ensures DepsOf(deps, a + b) == DepsOf(deps, b) + DepsOf(deps, a)
  {
    var c := a + b;
    forall i | 0 <= i < |a|
      ensures c[i] == a[i]
    {
    }
    forall i | 0 <= i < |b|
      ensures c[|a| + i] == b[i]
    {
    }
  }

  lemma MergedDescribed(v: Side, l: Lists, p: seq<nat>, m: seq<nat>)
    requires OfLength(l, |v.fees| + 1) && |v.deps| == |v.fees| && Described(v, l, p) && Described(v, l, m)
    ensures Described(v, MergedLists(l, Last(m), Last(p)), p + m)
    ensures D.Total(C.Rates(v.fees, v.sizes, p + m))
         == D.Total(C.Rates(v.fees, v.sizes, m)).Plus(D.Total(C.Rates(v.fees, v.sizes, p)))
  {
    assert (p + m)[0] == p[0] && Last(p + m) == Last(m);
    DepsOfConcat(v.deps, p, m);
    assert Elements(p + m) == Elements(m) + Elements(p);
    assert C.Rates(v.fees, v.sizes, p + m) == C.Rates(v.fees, v.sizes, p) + C.Rates(v.fees, v.sizes, m);
    D.TotalConcat(C.Rates(v.fees, v.sizes, p), C.Rates(v.fees, v.sizes, m));
  }

  lemma MergedChained(prevTx: seq<nat>, p: seq<nat>, m: seq<nat>)
    requires p != [] && m != [] && Chained(prevTx, p) && Chained(prevTx, m)
    requires forall i :: 0 <= i < |p| ==> p[i] != m[0]
    requires forall i :: 0 < i < |m| ==> m[i] != m[0]
    ensures Chained(prevTx[m[0] + 1 := Last(p)], p + m)
  {
    var all := p + m;
    forall i | 0 <= i < |all|
      ensures all[i] + 1 < |prevTx|
      ensures prevTx[m[0] + 1 := Last(p)][all[i] + 1] == if i == 0 then 0 else all[i - 1] + 1
    {
      if i < |p| {
        assert all[i] == p[i] && (i > 0 ==> all[i - 1] == p[i - 1]);
      } else if i == |p| {
        assert all[i] == m[0] && all[i - 1] == p[|p| - 1];
      } else {
        assert all[i] == m[i - |p|] && all[i - 1] == m[i - |p| - 1];
      }
    }
  }

  lemma MergedOther(v: Side, l: Lists, groups: seq<seq<nat>>, k: nat, j: nat)
    requires Holds(v, l, groups) && 0 < k < |groups| && j < |groups| && j != k
    ensures l.firstTx[Last(groups[k])] < |l.prevTx|
    ensures Described(v, MergedLists(l, Last(groups[k]), Last(groups[k - 1])), groups[j])
    ensures Chained(MergedLists(l, Last(groups[k]), Last(groups[k - 1])).prevTx, groups[j])
  {
    var m, seg := groups[k], groups[j];
    assert Described(v, l, m) && Described(v, l, seg) && Described(v, l, groups[k - 1]);
    NotTwice(groups, j, |seg| - 1, k, |m| - 1);
    forall i | 0 <= i < |seg|
      ensures seg[i] != m[0]
    {
      NotTwice(groups, j, i, k, 0);
    }
    Untouched(v, l, MergedLists(l, Last(m), Last(groups[k - 1])), seg);
  }

  lemma MergedOne(v: Side, l: Lists, groups: seq<seq<nat>>, k: nat)
    requires Holds(v, l, groups) && 0 < k < |groups|
    ensures l.firstTx[Last(groups[k])] < |l.prevTx|
    ensures Described(v, MergedLists(l, Last(groups[k]), Last(groups[k - 1])), groups[k - 1] + groups[k])
    ensures Chained(MergedLists(l, Last(groups[k]), Last(groups[k - 1])).prevTx, groups[k - 1] + groups[k])
  {
    var p, m := groups[k - 1], groups[k];
    assert Described(v, l, p) && Described(v, l, m);
    MergedDescribed(v, l, p, m);
    forall i | 0 <= i < |p|
      ensures p[i] != m[0]
    {
      NotTwice(groups, k - 1, i, k, 0);
    }
    forall i | 0 < i < |m|
      ensures m[i] != m[0]
    {
      NotTwice(groups, k, i, k, 0);
    }
    MergedChained(l.prevTx, p, m);
  }

  lemma Merged(v: Side, l: Lists, groups: seq<seq<nat>>, k: nat)
    requires Holds(v, l, groups) && 0 < k < |groups|
    ensures Last(groups[k]) < |l.prevTx| && Last(groups[k - 1]) < |l.prevTx| && l.firstTx[Last(groups[k])] < |l.prevTx|
    ensures Holds(v, MergedLists(l, Last(groups[k]), Last(groups[k - 1])), MergedGroups(groups, k))
  {
    assert Described(v, l, groups[k - 1]) && Described(v, l, groups[k]);
    MergedOne(v, l, groups, k);
    var l', more := MergedLists(l, Last(groups[k]), Last(groups[k - 1])), MergedGroups(groups, k);
    MergedApart(groups, k);
    MergedLinked(l.prevGroup, groups, k);
    forall j | 0 <= j < |more|
      ensures Described(v, l', more[j]) && Chained(l'.prevTx, more[j])
    {
      if j != k - 1 {
        MergedOther(v, l, groups, k, if j < k - 1 then j else j + 1);
      }
    }
  }

  // --- moving past the group in front ---

  ghost function SwappedGroups(groups: seq<seq<nat>>, k: nat): seq<seq<nat>>
    requires 0 < k < |groups|
  {
    groups[k - 1 := groups[k]][k := groups[k - 1]]
  }

  ghost function SwappedLists(l: Lists, cur: nat, prev: nat, next: nat): Lists
    requires OfLength(l, |l.prevTx|) && cur < |l.prevTx| && prev < |l.prevTx| && next < |l.prevTx|
  {
    l.(prevGroup := l.prevGroup[next := prev][prev := cur][cur := l.prevGroup[prev]])
  }

  lemma SwappedApart(groups: seq<seq<nat>>, k: nat)
    requires Apart(groups) && 0 < k < |groups|
    ensures Apart(SwappedGroups(groups, k))
  {
    var more := SwappedGroups(groups, k);
    forall j, i, j', i' | 0 <= j < |more| && 0 <= i < |more[j]| && 0 <= j' < |more| && 0 <= i' < |more[j']| &&
        Twice(more, j, i, j', i')
      ensures j == j' && i == i'
    {
      NotTwice(groups, if j == k then k - 1 else if j == k - 1 then k else j, i,
               if j' == k then k - 1 else if j' == k - 1 then k else j', i');
    }
  }

  lemma SwappedLinked(prevGroup: seq<nat>, groups: seq<seq<nat>>, k: nat, cur: nat, prev: nat, next: nat)
    requires Apart(groups) && 0 < k < |groups| && Apart(SwappedGroups(groups, k)) && Linked(prevGroup, groups)
    requires cur == SlotAt(groups, k) && prev == SlotAt(groups, k - 1) && next == SlotAt(groups, k + 1)
    ensures cur < |prevGroup| && prev < |prevGroup| && next < |prevGroup|
    ensures Linked(prevGroup[next := prev][prev := cur][cur := prevGroup[prev]], SwappedGroups(groups, k))
  {
    var more := SwappedGroups(groups, k);
    assert prevGroup[SlotAt(groups, k)] == SlotBefore(groups, k);
    assert prevGroup[SlotAt(groups, k + 1)] == SlotBefore(groups, k + 1);
    assert prevGroup[SlotAt(groups, k - 1)] == SlotBefore(groups, k - 1);
    var links := prevGroup[next := prev][prev := cur][cur := prevGroup[prev]];
    forall j | 0 <= j <= |more|
      ensures SlotAt(more, j) < |links| && links[SlotAt(more, j)] == SlotBefore(more, j)
    {
      SwappedLinkAt(prevGroup, groups, k, cur, prev, next, j);
    }
  }

  lemma SwappedLinkAt(prevGroup: seq<nat>, groups: seq<seq<nat>>, k: nat, cur: nat, prev: nat, next: nat, j: nat)
    requires Apart(groups) && 0 < k < |groups| && Apart(SwappedGroups(groups, k)) && Linked(prevGroup, groups)
    requires cur == SlotAt(groups, k) && prev == SlotAt(groups, k - 1) && next == SlotAt(groups, k + 1)
    requires cur < |prevGroup| && prev < |prevGroup| && next < |prevGroup| && j <= |groups|
    ensures SlotAt(SwappedGroups(groups, k), j) < |prevGroup|
    ensures prevGroup[next := prev][prev := cur][cur := prevGroup[prev]][SlotAt(SwappedGroups(groups, k), j)]
         == SlotBefore(SwappedGroups(groups, k), j)
  {
    var more := SwappedGroups(groups, k);
    var i := if j == k then k - 1 else if j == k - 1 then k else j;
    assert SlotAt(more, j) == SlotAt(groups, i);
    assert prevGroup[SlotAt(groups, i)] == SlotBefore(groups, i);
    SlotsApart(groups, i, k);
    SlotsApart(groups, i, k - 1);
    SlotsApart(groups, i, k + 1);
  }

  lemma Swapped(v: Side, l: Lists, groups: seq<seq<nat>>, k: nat)
    requires Holds(v, l, groups) && 0 < k < |groups|
    ensures SlotAt(groups, k) < |l.prevTx| && SlotAt(groups, k - 1) < |l.prevTx| && SlotAt(groups, k + 1) < |l.prevTx|
    ensures Holds(v, SwappedLists(l, SlotAt(groups, k), SlotAt(groups, k - 1), SlotAt(groups, k + 1)),
                  SwappedGroups(groups, k))
  {
    var cur, prev, next := SlotAt(groups, k), SlotAt(groups, k - 1), SlotAt(groups, k + 1);
    SwappedApart(groups, k);
    SwappedLinked(l.prevGroup, groups, k, cur, prev, next);
    var l', more := SwappedLists(l, cur, prev, next), SwappedGroups(groups, k);
    forall j | 0 <= j < |more|
      ensures Described(v, l', more[j]) && Chained(l'.prevTx, more[j])
    {
      var i := if j == k then k - 1 else if j == k - 1 then k else j;
      assert more[j] == groups[i];
      Untouched(v, l, l', groups[i]);
    }
  }
}
