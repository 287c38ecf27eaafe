/** Improving a linearization in place, in two passes: back to front, and then
    front to back. */
module PostLinearizing {
  import opened ClusterGraphs
  import opened DepGraphs
  import opened FeeRates
  import opened GroupLists
  import opened GroupOrders
  import opened GroupRanks
  import opened GroupShapes
  import opened Sequences
  import opened TreeOrders
  import C = Chunking
  import D = Diagrams

  ghost function Reversed<T>(s: seq<T>): (r: seq<T>)
    ensures |r| == |s|
  {
    seq(|s|, i requires 0 <= i < |s| => s[|s| - 1 - i])
  }

  /** Transactions of the cluster, each at most once, none before one that it
      depends on. */
  ghost predicate IsTopological(g: Graph, order: seq<nat>)
    requires ValidGraph(g)
  {
    Distinct(order) && (forall x :: x in order ==> x in g.positions) && KeepsDeps(g.ancestors, order)
  }

  /** The new group of the transaction `idx`, at the end of the list. */
  method AppendGroup(depgraph: DepGraph, rev: bool, l: Lists, idx: nat) returns (l': Lists)
    requires depgraph.Valid() && idx in depgraph.positions && OfLength(l, |depgraph.fees| + 1)
    ensures l' == AppendedLists(SideOf(depgraph.Value(), rev), l, idx)
  {
    var cur := idx + 1;
    var group := l.group[cur := {idx}];
    var deps := l.deps[cur := if rev then depgraph.descendants[idx] else depgraph.ancestors[idx]];
    var fees := l.fees[cur := if rev then -depgraph.fees[idx] else depgraph.fees[idx]];
    var sizes := l.sizes[cur := depgraph.sizes[idx]];
    var prevTx := l.prevTx[cur := 0];
    var firstTx := l.firstTx[cur := cur];
    var prevGroup := l.prevGroup[cur := l.prevGroup[0]];
    prevGroup := prevGroup[0 := cur];
    l' := Lists(prevTx, firstTx, prevGroup, group, deps, fees, sizes);
  }

  /** What the slots of the moving group and of the one in front of it hold. */
  lemma SlotsHold(v: Side, l: Lists, groups: seq<seq<nat>>, k: nat, base: seq<FeeFrac>, rho: FeeFrac, seen: seq<nat>)
    requires Placing(v, l, groups, k, base, rho, seen)
    ensures SlotAt(groups, k) == Last(groups[k]) < |l.prevTx| && l.prevGroup[SlotAt(groups, k)] == SlotBefore(groups, k)
    ensures Described(v, l, groups[k])
    ensures FeeFrac(l.fees[SlotAt(groups, k)], l.sizes[SlotAt(groups, k)]) == GroupRates(v, groups)[k]
    ensures SlotBefore(groups, k) != 0 <==> k > 0
    ensures k > 0 ==>
              && SlotBefore(groups, k) == SlotAt(groups, k - 1) == Last(groups[k - 1]) < |l.prevTx|
              && Described(v, l, groups[k - 1])
              && FeeFrac(l.fees[SlotBefore(groups, k)], l.sizes[SlotBefore(groups, k)]) == GroupRates(v, groups)[k - 1]
              && l.prevGroup[SlotBefore(groups, k)] == SlotBefore(groups, k - 1)
  {
    assert Described(v, l, groups[k]);
    assert l.prevGroup[SlotAt(groups, k)] == SlotBefore(groups, k);
    if k > 0 {
      assert Described(v, l, groups[k - 1]);
      assert l.prevGroup[SlotAt(groups, k - 1)] == SlotBefore(groups, k - 1);
    }
  }

  /** Merges the group `cur` with the group `prev` in front of it. */
  method MergeGroups(l: Lists, cur: nat, prev: nat) returns (l': Lists)
    requires OfLength(l, |l.prevTx|) && cur < |l.prevTx| && prev < |l.prevTx| && l.firstTx[cur] < |l.prevTx|
    ensures l' == MergedLists(l, cur, prev)
  {
    var group := l.group[cur := l.group[cur] + l.group[prev]];
    var deps := l.deps[cur := l.deps[cur] + l.deps[prev]];
    var fees := l.fees[cur := l.fees[cur] + l.fees[prev]];
    var sizes := l.sizes[cur := l.sizes[cur] + l.sizes[prev]];
    var prevTx := l.prevTx[l.firstTx[cur] := prev];
    var firstTx := l.firstTx[cur := l.firstTx[prev]];
    var prevGroup := l.prevGroup[cur := l.prevGroup[prev]];
    l' := Lists(prevTx, firstTx, prevGroup, group, deps, fees, sizes);
  }

  /** Moves the group `cur` in front of the group `prev`. */
  method SwapGroups(l: Lists, cur: nat, prev: nat, nextGroup: nat) returns (l': Lists)
    requires OfLength(l, |l.prevTx|) && cur < |l.prevTx| && prev < |l.prevTx| && nextGroup < |l.prevTx|
    requires nextGroup != prev
    ensures l' == SwappedLists(l, cur, prev, nextGroup)
  {
    var preprev := l.prevGroup[prev];
    var prevGroup := l.prevGroup[nextGroup := prev];
    prevGroup := prevGroup[prev := cur];
    prevGroup := prevGroup[cur := preprev];
    l' := l.(prevGroup := prevGroup);
  }

  /** The slots that the loop is at. */
  ghost predicate LoopAt(l: Lists, groups: seq<seq<nat>>, k: nat, cur: nat, prev: nat, nextGroup: nat) {
    && Apart(groups) && k < |groups| && OfLength(l, |l.prevTx|)
    && cur == SlotAt(groups, k) && prev == SlotBefore(groups, k) && nextGroup == SlotAt(groups, k + 1)
    && cur < |l.prevTx| && prev < |l.prevTx| && nextGroup < |l.prevTx|
  }

  lemma LoopStart(v: Side, l: Lists, groups: seq<seq<nat>>, k: nat, base: seq<FeeFrac>, rho: FeeFrac, seen: seq<nat>)
    requires Placing(v, l, groups, k, base, rho, seen)
    ensures SlotAt(groups, k) < |l.prevTx| && OfLength(l, |l.prevTx|)
    ensures LoopAt(l, groups, k, SlotAt(groups, k), l.prevGroup[SlotAt(groups, k)], SlotAt(groups, k + 1))
  {
    SlotsHold(v, l, groups, k, base, rho, seen);
    assert l.prevGroup[SlotAt(groups, k + 1)] == SlotBefore(groups, k + 1);
  }

  /** Whether there is a group before `cur`, and one of lower feerate. */
  predicate GoesForward(l: Lists, cur: nat, prev: nat)
    requires OfLength(l, |l.prevTx|) && cur < |l.prevTx| && prev < |l.prevTx|
  {
    prev != 0 && l.fees[cur] * l.sizes[prev] > l.fees[prev] * l.sizes[cur]
  }

  /** What that says of the groups. */
  lemma LoopCondition(v: Side, l: Lists, groups: seq<seq<nat>>, k: nat, base: seq<FeeFrac>, rho: FeeFrac,
                      seen: seq<nat>, cur: nat, prev: nat, nextGroup: nat)
    requires Placing(v, l, groups, k, base, rho, seen) && LoopAt(l, groups, k, cur, prev, nextGroup)
    ensures GoesForward(l, cur, prev)
        <==> (k > 0 && Cross(GroupRates(v, groups)[k], GroupRates(v, groups)[k - 1]) > 0)
  {
    SlotsHold(v, l, groups, k, base, rho, seen);
  }

  /** Moves the last group forward, past the lower-feerate groups that it does
      not depend on, merging with those that it does. */
  method PlaceLast(l: Lists, cur: nat, ghost v: Side, ghost groups: seq<seq<nat>>, ghost base: seq<FeeFrac>,
                   ghost seen: seq<nat>, ghost txs: set<nat>)
    returns (l': Lists, ghost groups': seq<seq<nat>>, ghost k: nat, ghost rho: FeeFrac)
    requires groups != [] && Placing(v, l, groups, |groups| - 1, base, BOTTOM, seen)
    requires cur == SlotAt(groups, |groups| - 1) && Forming(v, txs, groups, |groups| - 1, BOTTOM)
    ensures Placing(v, l', groups', k, base, rho, seen) && Forming(v, txs, groups', k, rho)
    ensures k > 0 ==> Cross(GroupRates(v, groups')[k], GroupRates(v, groups')[k - 1]) <= 0
  {
    l', groups', k, rho := l, groups, |groups| - 1, BOTTOM;
    LoopStart(v, l', groups', k, base, rho, seen);
    var nextGroup, prev := 0, l'.prevGroup[cur];
    while GoesForward(l', cur, prev)
      invariant Placing(v, l', groups', k, base, rho, seen) && LoopAt(l', groups', k, cur, prev, nextGroup)
      invariant Forming(v, txs, groups', k, rho)
      decreases k
    {
      LoopCondition(v, l', groups', k, base, rho, seen, cur, prev, nextGroup);
      l', nextGroup, prev, groups', k, rho := GoForward(l', cur, prev, nextGroup, v, groups', k, base, rho, seen, txs);
    }
    LoopCondition(v, l', groups', k, base, rho, seen, cur, prev, nextGroup);
  }

  /** One step forward: merging where there is a dependency, and passing where
      there is none. */
  method GoForward(l: Lists, cur: nat, prev: nat, nextGroup: nat, ghost v: Side, ghost groups: seq<seq<nat>>,
                   ghost k: nat, ghost base: seq<FeeFrac>, ghost rho: FeeFrac, ghost seen: seq<nat>,
                   ghost txs: set<nat>)
    returns (l': Lists, nextGroup': nat, prev': nat, ghost groups': seq<seq<nat>>, ghost k': nat, ghost rho': FeeFrac)
    requires Placing(v, l, groups, k, base, rho, seen) && LoopAt(l, groups, k, cur, prev, nextGroup)
    requires k > 0 && Cross(GroupRates(v, groups)[k], GroupRates(v, groups)[k - 1]) > 0
    requires Forming(v, txs, groups, k, rho)
    ensures k' == k - 1 && Placing(v, l', groups', k', base, rho', seen)
    ensures LoopAt(l', groups', k', cur, prev', nextGroup') && Forming(v, txs, groups', k', rho')
  {
    if l.deps[cur] * l.group[prev] != {} {
      nextGroup' := nextGroup;
      ghost var a, b := Overlap(v, l, groups, k, base, rho, seen, txs);
      FormingMerge(v, txs, groups, k, rho, a, b);
      l', prev', groups', k', rho' := MergeForward(l, cur, prev, nextGroup, v, groups, k, base, rho, seen);
    } else {
      rho' := rho;
      FormingSwap(v, txs, groups, k, rho);
      l', nextGroup', prev', groups', k' := MoveForward(l, cur, prev, nextGroup, v, groups, k, base, rho, seen);
    }
  }

  /** A dependency of the moving group on the one in front of it. */
  lemma Overlap(v: Side, l: Lists, groups: seq<seq<nat>>, k: nat, base: seq<FeeFrac>, rho: FeeFrac, seen: seq<nat>,
                txs: set<nat>)
    returns (a: nat, b: nat)
    requires Placing(v, l, groups, k, base, rho, seen) && Forming(v, txs, groups, k, rho) && k > 0
    requires Cross(GroupRates(v, groups)[k], GroupRates(v, groups)[k - 1]) > 0
    requires SlotAt(groups, k) < |l.deps| && SlotBefore(groups, k) < |l.group|
    requires l.deps[SlotAt(groups, k)] * l.group[SlotBefore(groups, k)] != {}
    ensures MayMerge(v, txs, groups, k, rho, a, b)
  {
    SlotsHold(v, l, groups, k, base, rho, seen);
    RatesSay(v, l, groups, k, base, rho, seen);
    a, b := DependsBack(v, groups, k);
  }

  lemma RatesSay(v: Side, l: Lists, groups: seq<seq<nat>>, k: nat, base: seq<FeeFrac>, rho: FeeFrac, seen: seq<nat>)
    requires Placing(v, l, groups, k, base, rho, seen) && k > 0
    requires Cross(GroupRates(v, groups)[k], GroupRates(v, groups)[k - 1]) > 0
    ensures Cross(C.SegRate(v.fees, v.sizes, groups[k]), C.SegRate(v.fees, v.sizes, groups[k - 1])) > 0
    ensures AtMost(rho, C.SegRate(v.fees, v.sizes, groups[k - 1]))
    ensures Apart(groups) && KeepsDeps(v.deps, D.Flatten(groups))
  {
  }

  lemma DependsBack(v: Side, groups: seq<seq<nat>>, k: nat) returns (a: nat, b: nat)
    requires 0 < k < |groups| && Apart(groups) && KeepsDeps(v.deps, D.Flatten(groups))
    requires forall i :: 0 <= i < |groups[k]| ==> groups[k][i] < |v.deps|
    requires DepsOf(v.deps, groups[k]) * Elements(groups[k - 1]) != {}
    ensures Elements(groups[k - 1]) !! Elements(groups[k])
    ensures a in Elements(groups[k - 1]) && b in Elements(groups[k]) && Dep(v.deps, b, a)
    ensures groups[k - 1] != [] && !Dep(v.deps, LastOf(groups[k - 1]), b)
  {
    var p, m := groups[k - 1], groups[k];
    a :| a in DepsOf(v.deps, m) * Elements(p);
    var i :| 0 <= i < |m| && a in v.deps[m[i]];
    b := m[i];
    NotBackward(v.deps, groups, k, |p| - 1, i);
    GroupsDisjoint(groups, k - 1, k);
  }

  method MergeForward(l: Lists, cur: nat, prev: nat, ghost nextGroup: nat, ghost v: Side, ghost groups: seq<seq<nat>>,
                      ghost k: nat, ghost base: seq<FeeFrac>, ghost rho: FeeFrac, ghost seen: seq<nat>)
    returns (l': Lists, prev': nat, ghost groups': seq<seq<nat>>, ghost k': nat, ghost rho': FeeFrac)
    requires Placing(v, l, groups, k, base, rho, seen) && LoopAt(l, groups, k, cur, prev, nextGroup)
    requires k > 0 && Cross(GroupRates(v, groups)[k], GroupRates(v, groups)[k - 1]) > 0
    ensures k' == k - 1 && Placing(v, l', groups', k', base, rho', seen)
    ensures groups' == MergedGroups(groups, k) && rho' == GroupRates(v, groups)[k - 1]
    ensures LoopAt(l', groups', k', cur, prev', nextGroup)
  {
    PlaceMerge(v, l, groups, k, base, rho, seen);
    l' := MergeGroups(l, cur, prev);
    groups', k', rho' := MergedGroups(groups, k), k - 1, GroupRates(v, groups)[k - 1];
    MergedSlots(groups, k);
    LoopStart(v, l', groups', k', base, rho', seen);
    prev' := l'.prevGroup[cur];
  }

  method MoveForward(l: Lists, cur: nat, prev: nat, nextGroup: nat, ghost v: Side, ghost groups: seq<seq<nat>>,
                     ghost k: nat, ghost base: seq<FeeFrac>, ghost rho: FeeFrac, ghost seen: seq<nat>)
    returns (l': Lists, nextGroup': nat, prev': nat, ghost groups': seq<seq<nat>>, ghost k': nat)
    requires Placing(v, l, groups, k, base, rho, seen) && LoopAt(l, groups, k, cur, prev, nextGroup)
    requires k > 0 && Cross(GroupRates(v, groups)[k], GroupRates(v, groups)[k - 1]) > 0
    requires l.deps[cur] * l.group[prev] == {}
    ensures k' == k - 1 && Placing(v, l', groups', k', base, rho, seen) && groups' == SwappedGroups(groups, k)
    ensures LoopAt(l', groups', k', cur, prev', nextGroup')
  {
    SlotsHold(v, l, groups, k, base, rho, seen);
    Independent(v, l, groups[k - 1], groups[k]);
    PlaceSwap(v, l, groups, k, base, rho, seen);
    SlotsApart(groups, k - 1, k + 1);
    l' := SwapGroups(l, cur, prev, nextGroup);
    groups', k' := SwappedGroups(groups, k), k - 1;
    LoopStart(v, l', groups', k', base, rho, seen);
    nextGroup', prev' := prev, l'.prevGroup[cur];
  }

  lemma Independent(v: Side, l: Lists, p: seq<nat>, m: seq<nat>)
    requires OfLength(l, |v.fees| + 1) && |v.deps| == |v.fees| && Described(v, l, p) && Described(v, l, m)
    requires l.deps[Last(m)] * l.group[Last(p)] == {}
    ensures forall i :: 0 <= i < |m| ==> m[i] < |v.deps|
    ensures DepsOf(v.deps, m) !! Elements(p)
  {
    NoneInBoth(l.deps[Last(m)], l.group[Last(p)]);
  }

  lemma NoneInBoth(a: set<nat>, b: set<nat>)
    requires a * b == {}
    ensures a !! b
  {
    forall x | x in a
      ensures x !in b
    {
      assert x !in a * b;
    }
  }

  lemma MergedSlots(groups: seq<seq<nat>>, k: nat)
    requires Apart(groups) && 0 < k < |groups| && Apart(MergedGroups(groups, k))
    ensures SlotAt(MergedGroups(groups, k), k - 1) == SlotAt(groups, k)
    ensures SlotAt(MergedGroups(groups, k), k) == SlotAt(groups, k + 1)
  {
  }

  /** Puts the next transaction in its place. */
  method PlaceNext(depgraph: DepGraph, rev: bool, l: Lists, idx: nat, ghost groups: seq<seq<nat>>, ghost seen: seq<nat>,
                   ghost txs: set<nat>)
    returns (l': Lists, ghost groups': seq<seq<nat>>)
    requires depgraph.Valid() && Sized(depgraph.Value()) && idx in depgraph.positions
    requires Placed(SideOf(depgraph.Value(), rev), l, groups, seen) && idx !in seen
    requires KeepsDeps(SideOf(depgraph.Value(), rev).deps, seen + [idx])
    requires WellFormed(SideOf(depgraph.Value(), rev), txs, groups) && idx in txs
    ensures Placed(SideOf(depgraph.Value(), rev), l', groups', seen + [idx])
    ensures WellFormed(SideOf(depgraph.Value(), rev), txs, groups')
  {
    ghost var v, k, rho := SideOf(depgraph.Value(), rev), 0, BOTTOM;
    l' := AppendGroup(depgraph, rev, l, idx);
    groups' := NextGroup(v, l, groups, seen, idx, txs);
    l', groups', k, rho := PlaceLast(l', idx + 1, v, groups', GroupRates(v, groups), seen + [idx], txs);
    FormingEnd(v, txs, groups', k, rho);
    PlaceEnd(v, l', groups', k, GroupRates(v, groups), rho, seen, idx);
  }

  /** A transaction in a group of its own. */
  lemma NextGroup(v: Side, l: Lists, groups: seq<seq<nat>>, seen: seq<nat>, x: nat, txs: set<nat>)
    returns (groups': seq<seq<nat>>)
    requires Placed(v, l, groups, seen) && x !in seen && x < |v.fees| && v.sizes[x] > 0
    requires KeepsDeps(v.deps, seen + [x]) && WellFormed(v, txs, groups) && x in txs
    ensures groups' != []
    ensures Placing(v, AppendedLists(v, l, x), groups', |groups'| - 1, GroupRates(v, groups), BOTTOM, seen + [x])
    ensures Forming(v, txs, groups', |groups'| - 1, BOTTOM) && SlotAt(groups', |groups'| - 1) == x + 1
  {
    groups' := groups + [[x]];
    PricedOneMore(v, seen, x);
    PlaceStart(v, l, groups, seen, x);
    PricedOneMore(v, [], x);
    FormingStart(v, txs, groups, x);
  }

  lemma PricedOneMore(v: Side, seen: seq<nat>, x: nat)
    requires C.Priced(v.fees, v.sizes, seen) && x < |v.fees| && v.sizes[x] > 0
    ensures C.Priced(v.fees, v.sizes, seen + [x])
  {
  }

  // --- writing the order back ---

  /** Where the entry that is `done`-th from the end is written. */
  function Place(rev: bool, count: nat, done: nat): nat
    requires done < count
  {
    if rev then done else count - 1 - done
  }

  /** The last `done` entries of `order` are written, from the end; in reverse
      that is from the front. */
  ghost predicate Written(lin: seq<nat>, order: seq<nat>, rev: bool, done: nat) {
    && |lin| == |order| && done <= |order|
    && forall d :: 0 <= d < done ==> lin[Place(rev, |order|, d)] == order[|order| - 1 - d]
  }

  ghost function LengthOf(groups: seq<seq<nat>>, j: nat): nat
    requires j <= |groups|
  {
    |D.Flatten(groups[..j])|
  }

  lemma LengthStep(groups: seq<seq<nat>>, j: nat)
    requires j < |groups|
    ensures LengthOf(groups, j + 1) == LengthOf(groups, j) + |groups[j]| <= |D.Flatten(groups)|
    ensures LengthOf(groups, |groups|) == |D.Flatten(groups)| && LengthOf(groups, 0) == 0
    ensures forall i :: 0 <= i < |groups[j]| ==> D.Flatten(groups)[LengthOf(groups, j) + i] == groups[j][i]
  {
    assert groups[..j + 1] == groups[..j] + [groups[j]];
    D.FlattenAppend(groups[..j], groups[j]);
    assert groups == groups[..j + 1] + groups[j + 1..];
    D.FlattenConcat(groups[..j + 1], groups[j + 1..]);
    assert groups[..|groups|] == groups;
  }

  /** Writes the transactions of one group, last first. */
  method WriteGroup(linearization: array<nat>, prevTx: seq<nat>, cur: nat, rev: bool, done: nat,
                    ghost groups: seq<seq<nat>>, ghost j: nat)
    returns (done': nat)
    requires j < |groups| && groups[j] != [] && Chained(prevTx, groups[j]) && cur == Last(groups[j])
    requires Written(linearization[..], D.Flatten(groups), rev, done)
    requires done + LengthOf(groups, j + 1) == |D.Flatten(groups)|
    modifies linearization
    ensures Written(linearization[..], D.Flatten(groups), rev, done')
    ensures done' + LengthOf(groups, j) == |D.Flatten(groups)|
  {
    LengthStep(groups, j);
    ghost var order, i := D.Flatten(groups), |groups[j]| - 1;
    var tx: nat := cur;
    done' := done;
    while true
      invariant 0 <= i < |groups[j]| && tx == groups[j][i] + 1
      invariant done' + LengthOf(groups, j) + i + 1 == |order| && Written(linearization[..], order, rev, done')
      decreases i
    {
      WriteOne(linearization, rev, done', tx - 1, order);
      done' := done' + 1;
      PrevOf(prevTx, groups[j], i);
      tx := prevTx[tx];
      if tx == 0 {
        return;
      }
      i := i - 1;
    }
  }

  lemma PrevOf(prevTx: seq<nat>, seg: seq<nat>, i: nat)
    requires Chained(prevTx, seg) && i < |seg|
    ensures seg[i] + 1 < |prevTx| && prevTx[seg[i] + 1] == if i == 0 then 0 else seg[i - 1] + 1
  {
  }

  method WriteOne(linearization: array<nat>, rev: bool, done: nat, tx: nat, ghost order: seq<nat>)
    requires Written(linearization[..], order, rev, done) && done < |order| && tx == order[|order| - 1 - done]
    modifies linearization
    ensures Written(linearization[..], order, rev, done + 1)
  {
    ghost var before := linearization[..];
    linearization[if rev then done else linearization.Length - 1 - done] := tx;
    assert linearization[..] == before[Place(rev, |order|, done) := tx];
  }

  /** Writes the groups, last first. */
  method WriteBack(linearization: array<nat>, l: Lists, rev: bool, ghost v: Side, ghost groups: seq<seq<nat>>)
    requires Holds(v, l, groups) && linearization.Length == |D.Flatten(groups)|
    modifies linearization
    ensures Facing(linearization[..], rev) == D.Flatten(groups)
  {
    ghost var j := |groups|;
    assert groups[..j] == groups;
    assert l.prevGroup[SlotAt(groups, j)] == SlotBefore(groups, j);
    var cur, done: nat := l.prevGroup[0], 0;
    while cur != 0
      invariant 0 <= j <= |groups| && cur == SlotBefore(groups, j) && done + LengthOf(groups, j) == |D.Flatten(groups)|
      invariant Written(linearization[..], D.Flatten(groups), rev, done)
      decreases j
    {
      assert Described(v, l, groups[j - 1]) && Chained(l.prevTx, groups[j - 1]);
      assert l.prevGroup[SlotAt(groups, j - 1)] == SlotBefore(groups, j - 1);
      done := WriteGroup(linearization, l.prevTx, cur, rev, done, groups, j - 1);
      cur := l.prevGroup[cur];
      j := j - 1;
    }
    assert groups[..0] == [];
    AllWritten(linearization[..], D.Flatten(groups), rev);
  }

  lemma AllWritten(lin: seq<nat>, order: seq<nat>, rev: bool)
    requires Written(lin, order, rev, |order|)
    ensures order == if rev then Reversed(lin) else lin
  {
    forall i | 0 <= i < |order|
      ensures order[i] == if rev then Reversed(lin)[i] else lin[i]
    {
      var d := |order| - 1 - i;
      assert lin[Place(rev, |order|, d)] == order[|order| - 1 - d];
    }
  }

  // --- the passes ---

  /** A linearization as a pass sees it. */
  ghost function Facing(lin: seq<nat>, rev: bool): (r: seq<nat>)
    ensures |r| == |lin|
  {
    if rev then Reversed(lin) else lin
  }

  /** What a pass takes, and leaves. */
  ghost predicate Passable(g: Graph, rev: bool, order: seq<nat>)
    requires ValidGraph(g)
  {
    Distinct(order) && (forall x :: x in order ==> x in g.positions) && KeepsDeps(SideOf(g, rev).deps, order)
  }

  lemma NextInOrder(g: Graph, rev: bool, order: seq<nat>, i: nat)
    requires ValidGraph(g) && Passable(g, rev, order) && i < |order|
    ensures order[..i + 1] == order[..i] + [order[i]] && order[i] in g.positions && order[i] !in order[..i]
    ensures KeepsDeps(SideOf(g, rev).deps, order[..i] + [order[i]])
  {
    assert order[i] in order;
    assert order[..i + 1] == order[..i] + [order[i]];
  }

  lemma NothingPlaced(v: Side, l: Lists)
    requires OfLength(l, |v.fees| + 1) && |v.deps| == |v.fees| && |v.sizes| == |v.fees| && l.prevGroup[0] == 0
    ensures Placed(v, l, [], [])
  {
    assert C.Rates(v.fees, v.sizes, []) == [];
    assert GroupRates(v, []) == [];
    forall slope: FeeFrac | slope.size > 0
      ensures D.CoversAlong([], [], slope)
    {
    }
  }

  /** One pass over a linearization. */
  method Pass(depgraph: DepGraph, linearization: array<nat>, rev: bool, l: Lists)
    returns (l': Lists, ghost groups: seq<seq<nat>>)
    requires depgraph.Valid() && Sized(depgraph.Value()) && OfLength(l, |depgraph.fees| + 1)
    requires Passable(depgraph.Value(), rev, Facing(linearization[..], rev))
    modifies linearization
    ensures OfLength(l', |depgraph.fees| + 1) && Facing(linearization[..], rev) == D.Flatten(groups)
    ensures Placed(SideOf(depgraph.Value(), rev), l', groups, old(Facing(linearization[..], rev)))
    ensures WellFormed(SideOf(depgraph.Value(), rev), Elements(old(Facing(linearization[..], rev))), groups)
  {
    ghost var was := Facing(linearization[..], rev);
    l', groups := PlaceAll(depgraph, linearization, rev, l, was);
    AllHeld(SideOf(depgraph.Value(), rev), l', groups, was);
    WriteBack(linearization, l', rev, SideOf(depgraph.Value(), rev), groups);
  }

  /** The groups of a whole linearization. */
  method PlaceAll(depgraph: DepGraph, linearization: array<nat>, rev: bool, l: Lists, ghost order: seq<nat>)
    returns (l': Lists, ghost groups: seq<seq<nat>>)
    requires depgraph.Valid() && Sized(depgraph.Value()) && OfLength(l, |depgraph.fees| + 1)
    requires order == Facing(linearization[..], rev) && Passable(depgraph.Value(), rev, order)
    ensures OfLength(l', |depgraph.fees| + 1) && Placed(SideOf(depgraph.Value(), rev), l', groups, order)
    ensures WellFormed(SideOf(depgraph.Value(), rev), Elements(order), groups)
  {
    var count := linearization.Length;
    l', groups := l.(prevGroup := l.prevGroup[0 := 0]), [];
    NothingPlaced(SideOf(depgraph.Value(), rev), l');
    for i := 0 to count
      invariant Placed(SideOf(depgraph.Value(), rev), l', groups, order[..i])
      invariant WellFormed(SideOf(depgraph.Value(), rev), Elements(order), groups)
    {
      var idx := linearization[if rev then count - 1 - i else i];
      FacingAt(linearization[..], rev, i);
      NextInOrder(depgraph.Value(), rev, order, i);
      l', groups := PlaceNext(depgraph, rev, l', idx, groups, order[..i], Elements(order));
    }
    assert order[..count] == order;
  }

  lemma FacingAt(lin: seq<nat>, rev: bool, i: nat)
    requires i < |lin|
    ensures Facing(lin, rev)[i] == lin[if rev then |lin| - 1 - i else i]
  {
  }

  lemma AllHeld(v: Side, l: Lists, groups: seq<seq<nat>>, order: seq<nat>)
    requires Placed(v, l, groups, order)
    ensures Holds(v, l, groups) && |D.Flatten(groups)| == |order|
  {
    AsManyEntries(D.Flatten(groups), order);
  }

  lemma AsManyEntries(a: seq<nat>, b: seq<nat>)
    requires multiset(a) == multiset(b)
    ensures |a| == |b|
  {
    assert |multiset(a)| == |a| && |multiset(b)| == |b|;
  }

  // --- what both passes together keep ---

  lemma {:induction false} CountAtMostOne(order: seq<nat>, x: nat)
    ensures Distinct(order) ==> multiset(order)[x] <= 1
    decreases |order|
  {
    if order != [] {
      var n := |order| - 1;
      CountAtMostOne(order[..n], x);
      assert order == order[..n] + [order[n]];
      if Distinct(order) && order[n] == x {
        assert x !in order[..n];
        assert x !in multiset(order[..n]);
      }
    }
  }

  lemma StillDistinct(a: seq<nat>, b: seq<nat>)
    requires Distinct(a) && multiset(b) == multiset(a)
    ensures Distinct(b)
  {
    forall i, j | 0 <= i < j < |b|
      ensures b[i] != b[j]
    {
      CountAtMostOne(a, b[i]);
      assert b == b[..j] + [b[j]] + b[j + 1..];
      assert multiset(b) == multiset(b[..j]) + multiset{b[j]} + multiset(b[j + 1..]);
      assert b[..j][i] in multiset(b[..j]);
    }
  }

  lemma {:induction false} SameMembersReversed(s: seq<nat>)
    ensures multiset(Reversed(s)) == multiset(s)
    decreases |s|
  {
    if s != [] {
      var n := |s| - 1;
      SameMembersReversed(s[..n]);
      assert s == s[..n] + [s[n]];
      assert Reversed(s) == [s[n]] + Reversed(s[..n]);
    }
  }

  /** Backwards, an order keeps descendants as it keeps ancestors here. */
  lemma KeepsReversed(g: Graph, order: seq<nat>)
    requires ValidGraph(g) && forall x :: x in order ==> x in g.positions
    ensures KeepsDeps(g.descendants, Reversed(order)) <==> KeepsDeps(g.ancestors, order)
  {
    var r, n := Reversed(order), |order| - 1;
    forall p | 0 <= p < |order|
      ensures order[p] == r[n - p] && order[p] in g.positions
    {
      assert order[p] in order;
    }
    forall p, q | 0 <= p < q < |order|
      ensures order[q] in g.ancestors[order[p]] <==> r[n - p] in g.descendants[r[n - q]]
    {
    }
    if KeepsDeps(g.descendants, r) {
      forall p, q | 0 <= p < q < |order|
        ensures order[q] !in g.ancestors[order[p]]
      {
        assert r[n - p] !in g.descendants[r[n - q]];
      }
    }
  }

  lemma PassableEitherWay(g: Graph, order: seq<nat>, rev: bool)
    requires ValidGraph(g)
    ensures Passable(g, rev, Facing(order, rev)) <==> IsTopological(g, order)
  {
    if rev {
      var r := Reversed(order);
      SameMembersReversed(order);
      assert forall x :: x in r ==> x in multiset(r);
      assert forall x :: x in order ==> x in multiset(order);
      if Distinct(r) { StillDistinct(r, order); }
      if Distinct(order) { StillDistinct(order, r); }
      if forall x :: x in order ==> x in g.positions {
        KeepsReversed(g, order);
      }
    }
  }

  lemma RatesBackwards(g: Graph, order: seq<nat>)
    requires ValidGraph(g) && C.Priced(g.fees, g.sizes, order)
    ensures C.Priced(SideOf(g, true).fees, g.sizes, Reversed(order))
    ensures C.Rates(SideOf(g, true).fees, g.sizes, Reversed(order)) == Backwards(C.Rates(g.fees, g.sizes, order))
  {
    var r, n := Reversed(order), |order| - 1;
    forall i | 0 <= i < |order|
      ensures r[i] < |g.fees| && SideOf(g, true).fees[r[i]] == -g.fees[order[n - i]] && r[i] == order[n - i]
    {
    }
    var a, b := C.Rates(SideOf(g, true).fees, g.sizes, r), Backwards(C.Rates(g.fees, g.sizes, order));
    forall i | 0 <= i < |order|
      ensures a[i] == b[i]
    {
      assert a[i] == FeeFrac(SideOf(g, true).fees[r[i]], g.sizes[r[i]]);
      assert b[i] == FeeFrac(g.fees[order[n - i]], g.sizes[order[n - i]]).Neg();
    }
  }

  /** What a pass never lowers, seen from either side. */
  lemma PassGain(g: Graph, rev: bool, l: Lists, groups: seq<seq<nat>>, before: seq<nat>, after: seq<nat>)
    requires ValidGraph(g) && C.Priced(g.fees, g.sizes, before) && C.Priced(g.fees, g.sizes, after)
    requires Placed(SideOf(g, rev), l, groups, Facing(before, rev)) && Facing(after, rev) == D.Flatten(groups)
    ensures NeverWorse(g, after, before)
    ensures D.Total(C.Rates(g.fees, g.sizes, after)) == D.Total(C.Rates(g.fees, g.sizes, before))
  {
    PassTotal(g, rev, l, groups, before, after);
    forall slope: FeeFrac | slope.size > 0
      ensures D.Peak(C.Rates(g.fees, g.sizes, after), slope) >= D.Peak(C.Rates(g.fees, g.sizes, before), slope)
    {
      PlacedPeak(SideOf(g, rev), l, groups, Facing(before, rev), if rev then slope.Neg() else slope);
      if rev {
        RatesBackwards(g, before);
        RatesBackwards(g, after);
        BackwardsPeak(C.Rates(g.fees, g.sizes, before), slope);
        BackwardsPeak(C.Rates(g.fees, g.sizes, after), slope);
      }
    }
  }

  lemma {:induction false} BackwardsTotal(rs: seq<FeeFrac>)
    ensures D.Total(Backwards(rs)) == D.Total(rs).Neg()
    decreases |rs|
  {
    if rs != [] {
      var n := |rs| - 1;
      BackwardsTotal(rs[..n]);
      assert rs == rs[..n] + [rs[n]];
      D.TotalConcat(rs[..n], [rs[n]]);
      assert [rs[n]][1..] == [];
      assert Backwards(rs)[0] == rs[n].Neg() && Backwards(rs)[1..] == Backwards(rs[..n]);
    }
  }

  lemma PassTotal(g: Graph, rev: bool, l: Lists, groups: seq<seq<nat>>, before: seq<nat>, after: seq<nat>)
    requires ValidGraph(g) && C.Priced(g.fees, g.sizes, before) && C.Priced(g.fees, g.sizes, after)
    requires Placed(SideOf(g, rev), l, groups, Facing(before, rev)) && Facing(after, rev) == D.Flatten(groups)
    ensures D.Total(C.Rates(g.fees, g.sizes, after)) == D.Total(C.Rates(g.fees, g.sizes, before))
  {
    PlacedPeak(SideOf(g, rev), l, groups, Facing(before, rev), FeeFrac(0, 1));
    if rev {
      RatesBackwards(g, before);
      RatesBackwards(g, after);
      BackwardsTotal(C.Rates(g.fees, g.sizes, before));
      BackwardsTotal(C.Rates(g.fees, g.sizes, after));
    }
  }

  lemma PassMembers(rev: bool, before: seq<nat>, after: seq<nat>, groups: seq<seq<nat>>)
    requires multiset(D.Flatten(groups)) == multiset(Facing(before, rev)) && Facing(after, rev) == D.Flatten(groups)
    ensures multiset(after) == multiset(before) == multiset(Facing(after, rev))
  {
    SameMembersReversed(before);
    SameMembersReversed(after);
  }

  /** What one pass does to a linearization. */
  lemma PassKeeps(g: Graph, rev: bool, l: Lists, groups: seq<seq<nat>>, before: seq<nat>, after: seq<nat>)
    requires ValidGraph(g) && Sized(g) && IsTopological(g, before)
    requires Placed(SideOf(g, rev), l, groups, Facing(before, rev)) && Facing(after, rev) == D.Flatten(groups)
    ensures IsTopological(g, after) && multiset(after) == multiset(before) && NeverWorse(g, after, before)
  {
    PassMembers(rev, before, after, groups);
    StillDistinct(before, after);
    StillWithin(g, before, after);
    OrderedPriced(g, before);
    OrderedPriced(g, after);
    PassGain(g, rev, l, groups, before, after);
    StillDistinct(after, Facing(after, rev));
    StillWithin(g, after, Facing(after, rev));
    PassableEitherWay(g, after, rev);
  }

  lemma StillWithin(g: Graph, a: seq<nat>, b: seq<nat>)
    requires (forall x :: x in a ==> x in g.positions) && multiset(b) == multiset(a)
    ensures forall x :: x in b ==> x in g.positions
  {
    forall x | x in b
      ensures x in g.positions
    {
      assert x in multiset(b);
      assert x in a;
    }
  }

  lemma OrderedPriced(g: Graph, order: seq<nat>)
    requires ValidGraph(g) && Sized(g) && forall x :: x in order ==> x in g.positions
    ensures C.Priced(g.fees, g.sizes, order)
  {
    forall i | 0 <= i < |order|
      ensures order[i] in g.positions
    {
      assert order[i] in order;
    }
  }

  lemma NeverWorseTwice(g: Graph, a: seq<nat>, b: seq<nat>, c: seq<nat>)
    requires NeverWorse(g, a, b) && NeverWorse(g, b, c)
    ensures NeverWorse(g, a, c)
  {
    forall slope: FeeFrac | slope.size > 0
      ensures D.Peak(C.Rates(g.fees, g.sizes, a), slope) >= D.Peak(C.Rates(g.fees, g.sizes, c), slope)
    {
      assert D.Peak(C.Rates(g.fees, g.sizes, a), slope) >= D.Peak(C.Rates(g.fees, g.sizes, b), slope);
      assert D.Peak(C.Rates(g.fees, g.sizes, b), slope) >= D.Peak(C.Rates(g.fees, g.sizes, c), slope);
    }
  }

  // --- trees ---

  lemma GroupsOfTree(v: Side, l: Lists, groups: seq<seq<nat>>, seen: seq<nat>, txs: set<nat>)
    requires Placed(v, l, groups, seen) && WellFormed(v, txs, groups) && TreeSide(v, txs)
    ensures TreeGroups(v, groups) && D.Sorted(GroupRates(v, groups))
  {
    forall i, j | 0 <= i < j < |groups|
      ensures Elements(groups[i]) !! Elements(groups[j])
    {
      GroupsDisjoint(groups, i, j);
    }
  }

  /** Totals do not depend on the order. */
  lemma SameTotals(v: Side, a: seq<nat>, b: seq<nat>)
    requires Distinct(a) && Distinct(b) && Elements(a) == Elements(b)
    requires C.Priced(v.fees, v.sizes, a) && C.Priced(v.fees, v.sizes, b)
    ensures D.Total(C.Rates(v.fees, v.sizes, a)) == D.Total(C.Rates(v.fees, v.sizes, b))
  {
    SegRateIsSetRate(v, a);
    SegRateIsSetRate(v, b);
  }

  lemma SideNoOrderAbove(g: Graph, rev: bool, l: Lists, groups: seq<seq<nat>>, before: seq<nat>, other: seq<nat>,
                         slope: FeeFrac)
    requires ValidGraph(g) && Sized(g) && TreeFacing(g, rev) && IsTopological(g, before) && before != []
    requires Placed(SideOf(g, rev), l, groups, Facing(before, rev)) && slope.size > 0
    requires WellFormed(SideOf(g, rev), Elements(Facing(before, rev)), groups)
    requires Distinct(other) && multiset(other) == multiset(Facing(before, rev))
    requires KeepsDeps(SideOf(g, rev).deps, other)
    requires C.Priced(SideOf(g, rev).fees, g.sizes, other)
    ensures C.Priced(SideOf(g, rev).fees, g.sizes, D.Flatten(groups))
    ensures D.Peak(C.Rates(SideOf(g, rev).fees, g.sizes, other), slope)
         <= D.Peak(C.Rates(SideOf(g, rev).fees, g.sizes, D.Flatten(groups)), slope)
  {
    var v, order := SideOf(g, rev), Facing(before, rev);
    PassableEitherWay(g, before, rev);
    assert forall x :: x in Elements(order) ==> x in order;
    TreeIsTreeSide(g, rev, Elements(order));
    GroupsOfTree(v, l, groups, order, Elements(order));
    SameElements(D.Flatten(groups), order);
    SameElements(other, order);
    assert order[0] in Elements(order);
    NoOrderAbove(v, groups, other, slope);
  }

  /** In a tree with its root at the end that a pass faces, the pass leaves an
      order that is never worse than any. */
  lemma PassOptimal(g: Graph, rev: bool, l: Lists, groups: seq<seq<nat>>, before: seq<nat>, after: seq<nat>,
                    other: seq<nat>)
    requires ValidGraph(g) && Sized(g) && TreeFacing(g, rev) && IsTopological(g, before) && IsTopological(g, after)
    requires Placed(SideOf(g, rev), l, groups, Facing(before, rev)) && Facing(after, rev) == D.Flatten(groups)
    requires WellFormed(SideOf(g, rev), Elements(Facing(before, rev)), groups)
    requires IsTopological(g, other) && multiset(other) == multiset(before) == multiset(after)
    ensures NeverWorse(g, after, other)
  {
    OrderedPriced(g, after);
    OrderedPriced(g, other);
    SameElements(after, other);
    SameTotals(SideOf(g, false), after, other);
    forall slope: FeeFrac | slope.size > 0
      ensures D.Peak(C.Rates(g.fees, g.sizes, after), slope) >= D.Peak(C.Rates(g.fees, g.sizes, other), slope)
    {
      PassOptimalAt(g, rev, l, groups, before, after, other, slope);
    }
  }

  lemma PassOptimalAt(g: Graph, rev: bool, l: Lists, groups: seq<seq<nat>>, before: seq<nat>, after: seq<nat>,
                      other: seq<nat>, slope: FeeFrac)
    requires ValidGraph(g) && Sized(g) && TreeFacing(g, rev) && IsTopological(g, before)
    requires Placed(SideOf(g, rev), l, groups, Facing(before, rev)) && Facing(after, rev) == D.Flatten(groups)
    requires WellFormed(SideOf(g, rev), Elements(Facing(before, rev)), groups)
    requires IsTopological(g, other) && multiset(other) == multiset(before) == multiset(after) && slope.size > 0
    requires C.Priced(g.fees, g.sizes, after) && C.Priced(g.fees, g.sizes, other)
    requires D.Total(C.Rates(g.fees, g.sizes, after)) == D.Total(C.Rates(g.fees, g.sizes, other))
    ensures D.Peak(C.Rates(g.fees, g.sizes, after), slope) >= D.Peak(C.Rates(g.fees, g.sizes, other), slope)
  {
    if before == [] {
      NothingLeft(other);
      NothingLeft(after);
    } else {
      PassOptimalAlong(g, rev, l, groups, before, after, other, slope);
    }
  }

  lemma NothingLeft(s: seq<nat>)
    requires multiset(s) == multiset([])
    ensures s == []
  {
    assert |multiset(s)| == |s|;
  }

  lemma PassOptimalAlong(g: Graph, rev: bool, l: Lists, groups: seq<seq<nat>>, before: seq<nat>, after: seq<nat>,
                         other: seq<nat>, slope: FeeFrac)
    requires ValidGraph(g) && Sized(g) && TreeFacing(g, rev) && IsTopological(g, before) && before != []
    requires Placed(SideOf(g, rev), l, groups, Facing(before, rev)) && Facing(after, rev) == D.Flatten(groups)
    requires WellFormed(SideOf(g, rev), Elements(Facing(before, rev)), groups)
    requires IsTopological(g, other) && multiset(other) == multiset(before) && slope.size > 0
    requires C.Priced(g.fees, g.sizes, after) && C.Priced(g.fees, g.sizes, other)
    requires D.Total(C.Rates(g.fees, g.sizes, after)) == D.Total(C.Rates(g.fees, g.sizes, other))
    ensures D.Peak(C.Rates(g.fees, g.sizes, after), slope) >= D.Peak(C.Rates(g.fees, g.sizes, other), slope)
  {
    PassableEitherWay(g, other, rev);
    SameMembersReversed(before);
    SameMembersReversed(other);
    if rev {
      RatesBackwards(g, after);
      RatesBackwards(g, other);
      SideNoOrderAbove(g, rev, l, groups, before, Facing(other, rev), slope.Neg());
      BackwardsPeak(C.Rates(g.fees, g.sizes, after), slope);
      BackwardsPeak(C.Rates(g.fees, g.sizes, other), slope);
    } else {
      SideNoOrderAbove(g, rev, l, groups, before, other, slope);
    }
  }

  /** Every order of the same transactions, ancestors first, is no better. */
  ghost predicate NoneIsBetter(g: Graph, order: seq<nat>)
    requires ValidGraph(g)
  {
    forall other: seq<nat> ::
      IsTopological(g, other) && multiset(other) == multiset(order) ==> NeverWorse(g, order, other)
  }

  /** The pass from back to front, for a tree in which nothing has two parents. */
  lemma BackwardOptimal(g: Graph, l: Lists, groups: seq<seq<nat>>, before: seq<nat>, between: seq<nat>, after: seq<nat>)
    requires ValidGraph(g) && Sized(g) && Acyclic(g) && OneParent(g)
    requires IsTopological(g, before) && IsTopological(g, between)
    requires Placed(SideOf(g, true), l, groups, Facing(before, true)) && Facing(between, true) == D.Flatten(groups)
    requires WellFormed(SideOf(g, true), Elements(Facing(before, true)), groups)
    requires multiset(before) == multiset(between) == multiset(after) && NeverWorse(g, after, between)
    ensures NoneIsBetter(g, after)
  {
    forall other: seq<nat> | IsTopological(g, other) && multiset(other) == multiset(after)
      ensures NeverWorse(g, after, other)
    {
      PassOptimal(g, true, l, groups, before, between, other);
      NeverWorseTwice(g, after, between, other);
    }
  }

  /** The pass from front to back, for one in which nothing has two children. */
  lemma ForwardOptimal(g: Graph, l: Lists, groups: seq<seq<nat>>, between: seq<nat>, after: seq<nat>)
    requires ValidGraph(g) && Sized(g) && Acyclic(g) && OneChild(g)
    requires IsTopological(g, between) && IsTopological(g, after)
    requires Placed(SideOf(g, false), l, groups, Facing(between, false)) && Facing(after, false) == D.Flatten(groups)
    requires WellFormed(SideOf(g, false), Elements(Facing(between, false)), groups)
    requires multiset(between) == multiset(after)
    ensures NoneIsBetter(g, after)
  {
    forall other: seq<nat> | IsTopological(g, other) && multiset(other) == multiset(after)
      ensures NeverWorse(g, after, other)
    {
      PassOptimal(g, false, l, groups, between, after, other);
    }
  }

  /** Improves `linearization` in place. It stays an order of the same
      transactions, ancestors first, and is never worse. The groups of the last
      pass are its chunks, and each of them hangs together; and if no transaction
      of the cluster has two parents, or none has two children, no order of the
      same transactions is better. */
  method PostLinearize(depgraph: DepGraph, linearization: array<nat>) returns (ghost groups: seq<seq<nat>>)
    requires depgraph.Valid() && Sized(depgraph.Value()) && IsTopological(depgraph.Value(), linearization[..])
    modifies linearization
    ensures IsTopological(depgraph.Value(), linearization[..])
    ensures multiset(linearization[..]) == multiset(old(linearization[..]))
    ensures NeverWorse(depgraph.Value(), linearization[..], old(linearization[..]))
    ensures linearization[..] == D.Flatten(groups)
    ensures C.Chunks(depgraph.fees, depgraph.sizes, groups)
    ensures forall j :: 0 <= j < |groups| ==> Together(depgraph.ancestors, Elements(groups[j]))
    ensures Acyclic(depgraph.Value()) && (OneParent(depgraph.Value()) || OneChild(depgraph.Value())) ==>
              NoneIsBetter(depgraph.Value(), linearization[..])
  {
    ghost var g, before := depgraph.Value(), linearization[..];
    var size := |depgraph.fees| + 1;
    var l := Lists(seq(size, _ => 0), seq(size, _ => 0), seq(size, _ => 0), seq(size, _ => {}), seq(size, _ => {}),
                   seq(size, _ => 0), seq(size, _ => 0));
    PassableEitherWay(g, before, true);
    l, groups := Pass(depgraph, linearization, true, l);
    ghost var between, l1, groups1 := linearization[..], l, groups;
    PassKeeps(g, true, l, groups, before, between);
    PassableEitherWay(g, between, false);
    l, groups := Pass(depgraph, linearization, false, l);
    BothPasses(g, before, l1, groups1, between, l, groups, linearization[..]);
  }

  /** What both passes come to. */
  lemma BothPasses(g: Graph, before: seq<nat>, l1: Lists, groups1: seq<seq<nat>>, between: seq<nat>, l2: Lists,
                   groups: seq<seq<nat>>, after: seq<nat>)
    requires ValidGraph(g) && Sized(g) && IsTopological(g, before) && IsTopological(g, between)
    requires Placed(SideOf(g, true), l1, groups1, Facing(before, true)) && Facing(between, true) == D.Flatten(groups1)
    requires WellFormed(SideOf(g, true), Elements(Facing(before, true)), groups1)
    requires Placed(SideOf(g, false), l2, groups, Facing(between, false)) && Facing(after, false) == D.Flatten(groups)
    requires WellFormed(SideOf(g, false), Elements(Facing(between, false)), groups)
    requires multiset(before) == multiset(between) && NeverWorse(g, between, before)
    ensures IsTopological(g, after) && multiset(after) == multiset(before) && NeverWorse(g, after, before)
    ensures C.Chunks(g.fees, g.sizes, groups)
    ensures forall j :: 0 <= j < |groups| ==> Together(g.ancestors, Elements(groups[j]))
    ensures Acyclic(g) && (OneParent(g) || OneChild(g)) ==> NoneIsBetter(g, after)
  {
    PassKeeps(g, false, l2, groups, between, after);
    NeverWorseTwice(g, after, between, before);
    GroupsAreChunks(SideOf(g, false), l2, groups, Facing(between, false), Elements(Facing(between, false)));
    if Acyclic(g) && OneParent(g) {
      BackwardOptimal(g, l1, groups1, before, between, after);
    } else if Acyclic(g) && OneChild(g) {
      ForwardOptimal(g, l2, groups, between, after);
    }
  }

  lemma GroupsAreChunks(v: Side, l: Lists, groups: seq<seq<nat>>, seen: seq<nat>, txs: set<nat>)
    requires Placed(v, l, groups, seen) && WellFormed(v, txs, groups)
    ensures C.Chunks(v.fees, v.sizes, groups)
  {
    forall i, j | 0 <= i < j < |groups|
      ensures Cross(C.SegRate(v.fees, v.sizes, groups[i]), C.SegRate(v.fees, v.sizes, groups[j])) >= 0
    {
      assert GroupRates(v, groups)[i] == C.SegRate(v.fees, v.sizes, groups[i]);
      assert GroupRates(v, groups)[j] == C.SegRate(v.fees, v.sizes, groups[j]);
    }
  }

  /** A linearization of all transactions is still one. */
  lemma StillLinearization(g: Graph, before: seq<nat>, after: seq<nat>)
    requires ValidGraph(g) && IsTopological(g, after) && multiset(after) == multiset(before)
    requires IsLinearization(g, before)
    ensures IsLinearization(g, after)
  {
    SameElements(before, after);
    forall i | 0 <= i < |after|
      ensures after[i] in g.positions && g.ancestors[after[i]] <= Elements(after[..i + 1])
    {
      assert after[i] in after;
      forall a | a in g.ancestors[after[i]]
        ensures a in Elements(after[..i + 1])
      {
        NotLater(g, after, i, a);
      }
    }
  }

  lemma SameElements(a: seq<nat>, b: seq<nat>)
    requires multiset(a) == multiset(b)
    ensures Elements(a) == Elements(b)
  {
    assert forall x :: x in a <==> x in multiset(a);
    assert forall x :: x in b <==> x in multiset(b);
  }

  lemma NotLater(g: Graph, order: seq<nat>, i: nat, a: nat)
    requires ValidGraph(g) && KeepsDeps(g.ancestors, order) && i < |order| && a in g.ancestors[order[i]]
    requires a in Elements(order)
    ensures a in Elements(order[..i + 1])
  {
    var q :| 0 <= q < |order| && order[q] == a;
    assert order[..i + 1][if q <= i then q else i] == order[if q <= i then q else i];
  }

  lemma NotEarlier(order: seq<nat>, p: nat, q: nat)
    requires Distinct(order) && p < q < |order|
    ensures order[q] !in Elements(order[..p + 1])
  {
    var prefix := order[..p + 1];
    forall i | 0 <= i < |prefix|
      ensures prefix[i] != order[q]
    {
      assert prefix[i] == order[i];
    }
  }

  /** And a linearization of all transactions can be improved. */
  lemma LinearizationIsTopological(g: Graph, order: seq<nat>)
    requires ValidGraph(g) && IsLinearization(g, order)
    ensures IsTopological(g, order)
  {
    forall p, q | 0 <= p < q < |order|
      ensures order[q] !in g.ancestors[order[p]]
    {
      NotEarlier(order, p, q);
    }
    assert forall x :: x in order ==> x in Elements(order);
  }
}
