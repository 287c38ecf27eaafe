/** Deactivating a dependency: what the arrays hold, and the trees they stand
    for then. */
module Deactivation {
  import opened Clusters
  import opened ForestStates
  import opened Forests
  import opened SetSums
  import opened Trees

  ghost predicate Active(g: Cluster, s: State, d: Dep) {
    ValidState(g, s) && d in s.depTop
  }

  /** The chunk of `d`. */
  ghost function Whole(g: Cluster, s: State, d: Dep): nat
    requires Indexed(g, s) && d in s.depTop
  {
    s.chunkIdx[d.parent]
  }

  /** `d` can be cut: its top set is part of its chunk. */
  ghost predicate Cuttable(g: Cluster, s: State, d: Dep) {
    && Indexed(g, s) && d in s.depTop
    && Whole(g, s, d) in s.chunkIdxs && s.setTx[s.depTop[d]] <= s.setTx[Whole(g, s, d)] <= g.txs
    && d.parent in s.setTx[s.depTop[d]] && d.child in s.setTx[Whole(g, s, d)] - s.setTx[s.depTop[d]]
  }

  /** The two parts of the cut. */
  ghost function TopPart(g: Cluster, s: State, d: Dep): Slot
    requires Indexed(g, s) && d in s.depTop
  {
    At(s, s.depTop[d])
  }

  ghost function BottomPart(g: Cluster, s: State, d: Dep): Slot
    requires Indexed(g, s) && d in s.depTop
  {
    At(s, Whole(g, s, d)).Less(TopPart(g, s, d))
  }

  /** The slots of the other active dependencies whose parent is in `side`. */
  ghost function OtherSlots(s: State, d: Dep, side: set<nat>): set<nat> {
    set e | e in s.depTop && e != d && e.parent in side :: s.depTop[e]
  }

  /** What a slot holds once `d` is no longer active. */
  ghost function Deactivating(g: Cluster, s: State, d: Dep, i: nat): Slot
    requires Indexed(g, s) && d in s.depTop && i < |s.setTx|
  {
    var top, bottom := TopPart(g, s, d), BottomPart(g, s, d);
    if i == Whole(g, s, d) then bottom
    else if i in OtherSlots(s, d, top.txs) then (if d.parent in s.setTx[i] then At(s, i).Less(bottom) else At(s, i))
    else if i in OtherSlots(s, d, bottom.txs) then (if d.child in s.setTx[i] then At(s, i).Less(top) else At(s, i))
    else At(s, i)
  }

  /** `s'` is `s` with `d` deactivated. */
  ghost predicate Deactivated(g: Cluster, s: State, d: Dep, s': State)
    requires Cuttable(g, s, d)
  {
    var top, bottom := s.depTop[d], Whole(g, s, d);
    var topTx, botTx := TopPart(g, s, d).txs, BottomPart(g, s, d).txs;
    && Shaped(g, s') && |s'.setTx| == |s.setTx|
    && s'.chunkIdxs == s.chunkIdxs + {top}
    && s'.depTop == s.depTop - {d}
    && s'.activeChildren == s.activeChildren[d.parent := s.activeChildren[d.parent] - {d.child}]
    && (forall x :: 0 <= x < |s.chunkIdx| ==> s'.chunkIdx[x] == if x in topTx then top else s.chunkIdx[x])
    && (forall i :: 0 <= i < |s.setTx| ==> At(s', i) == Deactivating(g, s, d, i))
    && s'.reachUp == s.reachUp[top := Up(g, topTx) - topTx][bottom := Up(g, botTx) - botTx]
    && ValidCluster(Mirror(g))
    && s'.reachDown == s.reachDown[top := Up(Mirror(g), topTx) - topTx][bottom := Up(Mirror(g), botTx) - botTx]
  }

  lemma OtherSlotsDisjoint(g: Cluster, s: State, d: Dep, i: nat)
    requires Cuttable(g, s, d) && i in OtherSlots(s, d, TopPart(g, s, d).txs)
    ensures i !in OtherSlots(s, d, BottomPart(g, s, d).txs) && i != Whole(g, s, d)
  {
    var e :| e in s.depTop && e != d && e.parent in TopPart(g, s, d).txs && s.depTop[e] == i;
  }

  /** The slots after both loops of a deactivation. */
  lemma DeactivateFromLoops(g: Cluster, s: State, d: Dep, s0: State, s1: State, s2: State, i: nat)
    requires Cuttable(g, s, d) && i < |s.setTx|
    requires |s0.setTx| == |s.setTx| && |s0.setFee| == |s.setTx| && |s0.setSize| == |s.setTx|
    requires At(s0, i) == if i == Whole(g, s, d) then BottomPart(g, s, d) else At(s, i)
    requires Adjusted(s0, OtherSlots(s, d, TopPart(g, s, d).txs), d.parent, BottomPart(g, s, d), false, s1)
    requires Adjusted(s1, OtherSlots(s, d, BottomPart(g, s, d).txs), d.child, TopPart(g, s, d), false, s2)
    ensures |s2.setTx| == |s.setTx| && |s2.setFee| == |s.setTx| && |s2.setSize| == |s.setTx|
    ensures At(s2, i) == Deactivating(g, s, d, i)
  {
    NoOtherSlot(g, s, d, Whole(g, s, d), TopPart(g, s, d).txs);
    NoOtherSlot(g, s, d, Whole(g, s, d), BottomPart(g, s, d).txs);
    if i in OtherSlots(s, d, TopPart(g, s, d).txs) {
      OtherSlotsDisjoint(g, s, d, i);
    }
  }

  /** The fields of the state as they are when the loops start. */
  ghost function Starting(g: Cluster, s: State, d: Dep): State
    requires Indexed(g, s) && d in s.depTop
  {
    var k, b := Whole(g, s, d), BottomPart(g, s, d);
    s.(depTop := s.depTop - {d},
       activeChildren := s.activeChildren[d.parent := s.activeChildren[d.parent] - {d.child}],
       chunkIdxs := s.chunkIdxs + {s.depTop[d]},
       setTx := s.setTx[k := b.txs], setFee := s.setFee[k := b.fee], setSize := s.setSize[k := b.size])
  }

  lemma StartingShaped(g: Cluster, s: State, d: Dep)
    requires Cuttable(g, s, d)
    ensures Shaped(g, Starting(g, s, d))
  {
  }

  lemma StartingActive(g: Cluster, s: State, d: Dep)
    requires Cuttable(g, s, d) && Shaped(g, Starting(g, s, d))
    ensures ActiveListed(g, Starting(g, s, d))
  {
    var s0 := Starting(g, s, d);
    forall p, c | p in g.txs
      ensures c in s0.activeChildren[p] <==> Dep(p, c) in s0.depTop
    {
    }
  }

  lemma StartingSlots(s: State, s0: State, d: Dep, side: set<nat>)
    requires s0.depTop == s.depTop - {d}
    ensures SlotsIn(s0, side) == OtherSlots(s, d, side)
  {
  }

  lemma StartingListed(g: Cluster, s: State, d: Dep)
    requires Cuttable(g, s, d)
    ensures Shaped(g, Starting(g, s, d)) && ActiveListed(g, Starting(g, s, d))
    ensures var s0 := Starting(g, s, d);
            && (forall e, f :: e in s0.depTop && f in s0.depTop && s0.depTop[e] == s0.depTop[f] ==> e == f)
            && SlotsIn(s0, TopPart(g, s, d).txs) == OtherSlots(s, d, TopPart(g, s, d).txs)
            && SlotsIn(s0, BottomPart(g, s, d).txs) == OtherSlots(s, d, BottomPart(g, s, d).txs)
  {
    StartingShaped(g, s, d);
    StartingActive(g, s, d);
    StartingSlots(s, Starting(g, s, d), d, TopPart(g, s, d).txs);
    StartingSlots(s, Starting(g, s, d), d, BottomPart(g, s, d).txs);
  }

  lemma DeactivatedFromLoops(g: Cluster, s: State, d: Dep, s1: State, s1': State, s2: State, s': State)
    requires Cuttable(g, s, d) && Shaped(g, s') && ValidCluster(Mirror(g))
    requires Adjusted(Starting(g, s, d), OtherSlots(s, d, TopPart(g, s, d).txs), d.parent, BottomPart(g, s, d), false,
                      s1)
    requires s1' == s1.(chunkIdx := s1'.chunkIdx) && |s1'.chunkIdx| == |s.chunkIdx|
    requires forall x :: 0 <= x < |s.chunkIdx| ==>
               s1'.chunkIdx[x] == if x in TopPart(g, s, d).txs then s.depTop[d] else s.chunkIdx[x]
    requires Adjusted(s1', OtherSlots(s, d, BottomPart(g, s, d).txs), d.child, TopPart(g, s, d), false, s2)
    requires var top, bottom := s.depTop[d], Whole(g, s, d);
             var topTx, botTx := TopPart(g, s, d).txs, BottomPart(g, s, d).txs;
             && s' == s2.(reachUp := s'.reachUp, reachDown := s'.reachDown)
             && s'.reachUp == s.reachUp[top := Up(g, topTx) - topTx][bottom := Up(g, botTx) - botTx]
             && s'.reachDown == s.reachDown[top := Up(Mirror(g), topTx) - topTx][bottom := Up(Mirror(g), botTx) - botTx]
    ensures Deactivated(g, s, d, s')
  {
    forall i | 0 <= i < |s.setTx|
      ensures At(s', i) == Deactivating(g, s, d, i)
    {
      assert At(s1, i) == At(s1', i);
      assert Adjusted(Starting(g, s, d), OtherSlots(s, d, TopPart(g, s, d).txs), d.parent, BottomPart(g, s, d), false,
                      s1);
      DeactivateFromLoops(g, s, d, Starting(g, s, d), s1, s2.(chunkIdx := s1.chunkIdx), i);
    }
  }

  lemma ActiveIsCuttable(g: Cluster, s: State, d: Dep)
    requires Active(g, s, d)
    ensures Cuttable(g, s, d)
    ensures TreesOf(g, s)[Whole(g, s, d)] == TreeOf(s, Whole(g, s, d)) && ValidTree(TreeOf(s, Whole(g, s, d)))
    ensures d in TreeOf(s, Whole(g, s, d)).tops
  {
    TreeIn(g, s, Whole(g, s, d));
    EdgeIn(g, s, d, Whole(g, s, d));
  }

  /** The slot of `e` is among those of the side that its parent is in. */
  lemma OtherSlot(g: Cluster, s: State, d: Dep, e: Dep, side: set<nat>)
    requires Indexed(g, s) && d in s.depTop && e in s.depTop && e != d
    ensures s.depTop[e] in OtherSlots(s, d, side) <==> e.parent in side
    ensures s.depTop[e] !in s.chunkIdxs
  {
  }

  lemma NoOtherSlot(g: Cluster, s: State, d: Dep, i: nat, side: set<nat>)
    requires Indexed(g, s) && d in s.depTop && (i in s.chunkIdxs || i == s.depTop[d])
    ensures i !in OtherSlots(s, d, side)
  {
  }

  lemma DeactivateOtherTop(g: Cluster, s: State, d: Dep, s': State, e: Dep)
    requires Cuttable(g, s, d) && Deactivated(g, s, d, s') && e in s.depTop && e.parent !in s.setTx[Whole(g, s, d)]
    ensures e != d && s'.setTx[s.depTop[e]] == s.setTx[s.depTop[e]]
  {
    OtherSlot(g, s, d, e, TopPart(g, s, d).txs);
    OtherSlot(g, s, d, e, BottomPart(g, s, d).txs);
    assert At(s', s.depTop[e]) == Deactivating(g, s, d, s.depTop[e]);
  }

  lemma DeactivateChunkSlot(g: Cluster, s: State, d: Dep, s': State, k: nat)
    requires Cuttable(g, s, d) && Deactivated(g, s, d, s') && k != Whole(g, s, d)
    requires k in s.chunkIdxs || k == s.depTop[d]
    ensures At(s', k) == At(s, k)
  {
    NoOtherSlot(g, s, d, k, TopPart(g, s, d).txs);
    NoOtherSlot(g, s, d, k, BottomPart(g, s, d).txs);
    assert At(s', k) == Deactivating(g, s, d, k);
  }

  lemma DeactivateOther(g: Cluster, s: State, d: Dep, s': State, k: nat)
    requires Cuttable(g, s, d) && Deactivated(g, s, d, s') && k in s.chunkIdxs && k != Whole(g, s, d)
    ensures TreeOf(s', k) == TreeOf(s, k)
  {
    DeactivateChunkSlot(g, s, d, s', k);
    ChunksApart(g, s, k, Whole(g, s, d));
    forall e | e in s.depTop && e.parent in s.setTx[k]
      ensures e != d && s'.setTx[s'.depTop[e]] == s.setTx[s.depTop[e]]
    {
      DeactivateOtherTop(g, s, d, s', e);
    }
    SameTops(s, s', s.setTx[k]);
  }

  lemma DeactivateOwnSlots(g: Cluster, s: State, d: Dep, s': State)
    requires Cuttable(g, s, d) && Deactivated(g, s, d, s')
    ensures At(s', s.depTop[d]) == TopPart(g, s, d)
    ensures At(s', Whole(g, s, d)) == BottomPart(g, s, d)
  {
    DeactivateChunkSlot(g, s, d, s', s.depTop[d]);
    assert At(s', Whole(g, s, d)) == Deactivating(g, s, d, Whole(g, s, d));
  }

  /** A top set on one side, with the other side cut off at `at`. */
  ghost function CutOff(S: set<nat>, at: nat, rest: set<nat>): set<nat> {
    if at in S then S - rest else S
  }

  lemma DeactivateSide(g: Cluster, s: State, d: Dep, s': State, e: Dep)
    requires Cuttable(g, s, d) && Deactivated(g, s, d, s') && e in s.depTop && e != d
    ensures e.parent in TopPart(g, s, d).txs ==>
              s'.setTx[s.depTop[e]] == CutOff(s.setTx[s.depTop[e]], d.parent, BottomPart(g, s, d).txs)
    ensures e.parent in BottomPart(g, s, d).txs ==>
              s'.setTx[s.depTop[e]] == CutOff(s.setTx[s.depTop[e]], d.child, TopPart(g, s, d).txs)
  {
    OtherSlot(g, s, d, e, TopPart(g, s, d).txs);
    OtherSlot(g, s, d, e, BottomPart(g, s, d).txs);
    assert At(s', s.depTop[e]) == Deactivating(g, s, d, s.depTop[e]);
  }

  /** Splitting, from what each slot holds. */
  lemma SplitTops(s: State, s': State, d: Dep, side: set<nat>, at: nat, rest: set<nat>, whole: set<nat>)
    requires DepsWithin(s) && DepsWithin(s') && side <= whole
    requires s'.depTop == s.depTop - {d} && |s'.setTx| == |s.setTx|
    requires forall e :: e in s.depTop && e != d && e.parent in side ==>
               s'.setTx[s.depTop[e]] == CutOff(s.setTx[s.depTop[e]], at, rest)
    ensures TopsIn(s', side) == Narrow(TopsIn(s, whole) - {d}, side, at, rest)
  {
  }

  /** Deactivating a dependency splits its tree. */
  lemma DeactivateSplits(g: Cluster, s: State, d: Dep, s': State)
    requires Cuttable(g, s, d) && Deactivated(g, s, d, s')
    ensures d in TreeOf(s, Whole(g, s, d)).tops && TreeOf(s, Whole(g, s, d)).tops[d] == TopPart(g, s, d).txs
    ensures TreeOf(s', s.depTop[d]) == Split(TreeOf(s, Whole(g, s, d)), d).0
    ensures TreeOf(s', Whole(g, s, d)) == Split(TreeOf(s, Whole(g, s, d)), d).1
  {
    var whole, top, bottom := s.setTx[Whole(g, s, d)], TopPart(g, s, d).txs, BottomPart(g, s, d).txs;
    DeactivateOwnSlots(g, s, d, s');
    forall e | e in s.depTop && e != d
      ensures e.parent in top ==> s'.setTx[s.depTop[e]] == CutOff(s.setTx[s.depTop[e]], d.parent, bottom)
      ensures e.parent in bottom ==> s'.setTx[s.depTop[e]] == CutOff(s.setTx[s.depTop[e]], d.child, top)
    {
      DeactivateSide(g, s, d, s', e);
    }
    SplitTops(s, s', d, top, d.parent, bottom, whole);
    SplitTops(s, s', d, bottom, d.child, top, whole);
  }

  lemma TakenByOther(s: State, s': State, d: Dep, i: nat)
    requires d in s.depTop && Taken(s, i) && i != s.depTop[d] && s'.depTop == s.depTop - {d}
    ensures Taken(s', i)
  {
    var e :| e in s.depTop && s.depTop[e] == i;
    assert e in s'.depTop && s'.depTop[e] == i;
  }

  lemma DeactivateSlots(g: Cluster, s: State, d: Dep, s': State)
    requires Cuttable(g, s, d) && Deactivated(g, s, d, s')
    ensures SlotsSplit(s')
  {
    forall i | 0 <= i < |s'.setTx|
      ensures i in s'.chunkIdxs || Taken(s', i)
    {
      if i !in s.chunkIdxs && i != s.depTop[d] {
        TakenByOther(s, s', d, i);
      }
    }
    DeactivateTops(g, s, d, s');
  }

  lemma DeactivateTops(g: Cluster, s: State, d: Dep, s': State)
    requires Cuttable(g, s, d) && Deactivated(g, s, d, s')
    ensures forall e :: e in s'.depTop ==>
              e in s.depTop && s'.depTop[e] == s.depTop[e] && s'.depTop[e] !in s'.chunkIdxs
  {
  }

  lemma DeactivateListed(g: Cluster, s: State, d: Dep, s': State)
    requires Cuttable(g, s, d) && Deactivated(g, s, d, s')
    ensures ActiveListed(g, s')
  {
  }

  lemma DeactivateChunks(g: Cluster, s: State, d: Dep, s': State)
    requires Cuttable(g, s, d) && Deactivated(g, s, d, s')
    ensures ChunksListed(g, s')
  {
    DeactivateOwnSlots(g, s, d, s');
    forall k | k in s.chunkIdxs && k != Whole(g, s, d)
      ensures s'.setTx[k] == s.setTx[k]
    {
      DeactivateChunkSlot(g, s, d, s', k);
      assert At(s', k) == At(s, k);
    }
    assert TopPart(g, s, d).txs <= s.setTx[Whole(g, s, d)];
  }

  ghost predicate Summed(g: Cluster, a: Slot)
    requires ValidCluster(g)
  {
    a.txs <= g.txs && a.fee == Sum(g.fees, a.txs) && a.size == Sum(g.sizes, a.txs)
  }

  /** Taking a part away. */
  lemma LessSums(g: Cluster, a: Slot, b: Slot)
    requires ValidCluster(g) && Summed(g, a) && Summed(g, b) && b.txs <= a.txs
    ensures Summed(g, a.Less(b))
  {
    SumSplit(g.fees, a.txs, b.txs);
    SumSplit(g.sizes, a.txs, b.txs);
  }

  /** A top set that reaches over the cut has all of the other part. */
  lemma OverTheCut(g: Cluster, s: State, d: Dep, e: Dep)
    requires Active(g, s, d) && Cuttable(g, s, d) && e in s.depTop && e != d
    ensures e.parent in TopPart(g, s, d).txs && d.parent in s.setTx[s.depTop[e]] ==>
              BottomPart(g, s, d).txs <= s.setTx[s.depTop[e]]
    ensures e.parent in BottomPart(g, s, d).txs && d.child in s.setTx[s.depTop[e]] ==>
              TopPart(g, s, d).txs <= s.setTx[s.depTop[e]]
  {
    var k := Whole(g, s, d);
    ActiveIsCuttable(g, s, d);
    if e.parent in s.setTx[k] {
      EdgeIn(g, s, e, k);
      EdgeIn(g, s, d, k);
      FarSide(TreeOf(s, k), d, e);
    }
  }

  lemma DeactivateSum(g: Cluster, s: State, d: Dep, i: nat)
    requires Active(g, s, d) && Cuttable(g, s, d) && i < |s.setTx|
    ensures Summed(g, Deactivating(g, s, d, i))
  {
    var top, bottom := TopPart(g, s, d), BottomPart(g, s, d);
    assert Summed(g, At(s, i)) && Summed(g, top) && Summed(g, At(s, Whole(g, s, d)));
    LessSums(g, At(s, Whole(g, s, d)), top);
    if i != Whole(g, s, d) {
      if i in OtherSlots(s, d, top.txs) {
        var e :| e in s.depTop && e != d && e.parent in top.txs && s.depTop[e] == i;
        if d.parent in s.setTx[i] {
          OverTheCut(g, s, d, e);
          LessSums(g, At(s, i), bottom);
        }
      } else if i in OtherSlots(s, d, bottom.txs) {
        var e :| e in s.depTop && e != d && e.parent in bottom.txs && s.depTop[e] == i;
        if d.child in s.setTx[i] {
          OverTheCut(g, s, d, e);
          LessSums(g, At(s, i), top);
        }
      }
    }
  }

  lemma DeactivateSums(g: Cluster, s: State, d: Dep, s': State)
    requires Active(g, s, d) && Cuttable(g, s, d) && Deactivated(g, s, d, s')
    ensures SetsSummed(g, s')
  {
    forall i | 0 <= i < |s'.setTx|
      ensures s'.setTx[i] <= g.txs && s'.setFee[i] == Sum(g.fees, s'.setTx[i])
      ensures s'.setSize[i] == Sum(g.sizes, s'.setTx[i])
    {
      DeactivateSum(g, s, d, i);
      assert At(s', i) == Deactivating(g, s, d, i);
    }
  }

  lemma DeactivateReach(g: Cluster, s: State, d: Dep, s': State)
    requires Active(g, s, d) && Cuttable(g, s, d) && Deactivated(g, s, d, s') && SetsSummed(g, s')
    ensures ReachListed(g, s')
  {
    DeactivateOwnSlots(g, s, d, s');
    assert s.depTop[d] != Whole(g, s, d);
    forall k | k in s.chunkIdxs && k != Whole(g, s, d)
      ensures s'.setTx[k] == s.setTx[k]
    {
      DeactivateChunkSlot(g, s, d, s', k);
      assert At(s', k) == At(s, k);
    }
  }

  lemma TreesWith(g: Cluster, s: State, s': State, top: nat, bottom: nat, a: Tree, b: Tree)
    requires Shaped(g, s) && Shaped(g, s') && bottom in s.chunkIdxs && top !in s.chunkIdxs
    requires s'.chunkIdxs == s.chunkIdxs + {top}
    requires bottom < |s'.setTx| && TreeOf(s', bottom) == b && top < |s'.setTx| && TreeOf(s', top) == a
    requires forall k :: k in s.chunkIdxs && k != bottom ==> TreeOf(s', k) == TreeOf(s, k)
    ensures TreesOf(g, s') == TreesOf(g, s)[bottom := b][top := a]
  {
  }

  lemma DeactivateTrees(g: Cluster, s: State, d: Dep, s': State)
    requires Cuttable(g, s, d) && Deactivated(g, s, d, s')
    ensures d in TreeOf(s, Whole(g, s, d)).tops
    ensures var k, (a, b) := Whole(g, s, d), Split(TreeOf(s, Whole(g, s, d)), d);
            TreesOf(g, s') == TreesOf(g, s)[k := b][s.depTop[d] := a]
  {
    DeactivateSplits(g, s, d, s');
    forall k | k in s.chunkIdxs && k != Whole(g, s, d)
      ensures TreeOf(s', k) == TreeOf(s, k)
    {
      DeactivateOther(g, s, d, s', k);
    }
    TreesWith(g, s, s', s.depTop[d], Whole(g, s, d), TreeOf(s', s.depTop[d]), TreeOf(s', Whole(g, s, d)));
  }

  /** A forest with one of its trees split. */
  lemma SplitForest(g: Cluster, t: Forest, k: nat, d: Dep, top: nat)
    requires ValidForest(g, t) && k in t && d in t[k].tops && top !in t
    ensures ValidForest(g, t[k := Split(t[k], d).1][top := Split(t[k], d).0])
  {
    var (a, b) := Split(t[k], d);
    SplitValid(t[k], d);
    SplitInTwo(g, t, k, a, b, top, t[k := b][top := a]);
  }

  /** The tree of `t` that the tree at `i` is part of. */
  ghost function Was(i: nat, k: nat, top: nat): nat {
    if i == top then k else i
  }

  /** `t'` has the tree at `k` in two parts, `a` at `top` and `b` at `k`. */
  ghost predicate InTwo(t: Forest, k: nat, a: Tree, b: Tree, top: nat, t': Forest) {
    && k in t && top !in t && t'.Keys == t.Keys + {top}
    && (forall i :: i in t' ==> t'[i] == if i == top then a else if i == k then b else t[i])
    && a.txs !! b.txs && a.txs <= t[k].txs && b.txs <= t[k].txs
    && a.tops.Keys <= t[k].tops.Keys && b.tops.Keys <= t[k].tops.Keys
  }

  lemma PartOf(t: Forest, k: nat, a: Tree, b: Tree, top: nat, t': Forest, i: nat)
    requires InTwo(t, k, a, b, top, t') && i in t'
    ensures Was(i, k, top) in t && t'[i].txs <= t[Was(i, k, top)].txs && t'[i].tops.Keys <= t[Was(i, k, top)].tops.Keys
  {
  }

  lemma StillApart(t: Forest, k: nat, a: Tree, b: Tree, top: nat, t': Forest, i: nat, j: nat)
    requires InTwo(t, k, a, b, top, t') && i in t' && j in t' && i != j
    requires Was(i, k, top) != Was(j, k, top) ==> t[Was(i, k, top)].txs !! t[Was(j, k, top)].txs
    ensures t'[i].txs !! t'[j].txs
  {
    PartOf(t, k, a, b, top, t', i);
    PartOf(t, k, a, b, top, t', j);
  }

  lemma AllApart(g: Cluster, t: Forest, k: nat, a: Tree, b: Tree, top: nat, t': Forest)
    requires ValidForest(g, t) && InTwo(t, k, a, b, top, t')
    ensures forall i, j :: i in t' && j in t' && i != j ==> t'[i].txs !! t'[j].txs
  {
    forall i, j | i in t' && j in t' && i != j
      ensures t'[i].txs !! t'[j].txs
    {
      PartOf(t, k, a, b, top, t', i);
      PartOf(t, k, a, b, top, t', j);
      StillApart(t, k, a, b, top, t', i, j);
    }
  }

  lemma DepsKept(g: Cluster, t: Forest, k: nat, a: Tree, b: Tree, top: nat, t': Forest)
    requires ValidForest(g, t) && InTwo(t, k, a, b, top, t')
    ensures forall i, d :: i in t' && d in t'[i].tops ==> d.child < |g.parents| && d.parent in g.parents[d.child]
  {
    forall i, d | i in t' && d in t'[i].tops
      ensures d.child < |g.parents| && d.parent in g.parents[d.child]
    {
      PartOf(t, k, a, b, top, t', i);
      assert d in t[Was(i, k, top)].tops;
    }
  }

  lemma SplitInTwo(g: Cluster, t: Forest, k: nat, a: Tree, b: Tree, top: nat, t': Forest)
    requires ValidForest(g, t) && InTwo(t, k, a, b, top, t') && ValidTree(a) && ValidTree(b)
    ensures ValidForest(g, t')
  {
    AllApart(g, t, k, a, b, top, t');
    DepsKept(g, t, k, a, b, top, t');
    TreesKept(g, t, k, a, b, top, t');
  }

  lemma TreesKept(g: Cluster, t: Forest, k: nat, a: Tree, b: Tree, top: nat, t': Forest)
    requires ValidForest(g, t) && InTwo(t, k, a, b, top, t') && ValidTree(a) && ValidTree(b)
    ensures forall i :: i in t' ==> ValidTree(t'[i]) && t'[i].txs <= g.txs
  {
    forall i | i in t'
      ensures ValidTree(t'[i]) && t'[i].txs <= g.txs
    {
      PartOf(t, k, a, b, top, t', i);
    }
  }

  /** Deactivating a dependency keeps the arrays right, and splits its tree. */
  lemma DeactivateValid(g: Cluster, s: State, d: Dep, s': State)
    requires Active(g, s, d) && Cuttable(g, s, d) && Deactivated(g, s, d, s')
    ensures ValidState(g, s')
    ensures Whole(g, s, d) in TreesOf(g, s) && d in TreesOf(g, s)[Whole(g, s, d)].tops
    ensures var k, (a, b) := Whole(g, s, d), Split(TreesOf(g, s)[Whole(g, s, d)], d);
            TreesOf(g, s') == TreesOf(g, s)[k := b][s.depTop[d] := a]
  {
    ActiveIsCuttable(g, s, d);
    DeactivateSlots(g, s, d, s');
    DeactivateListed(g, s, d, s');
    DeactivateChunks(g, s, d, s');
    DeactivateSums(g, s, d, s');
    DeactivateReach(g, s, d, s');
    DeactivateTrees(g, s, d, s');
    SplitForest(g, TreesOf(g, s), Whole(g, s, d), d, s.depTop[d]);
  }

  lemma AddLess(a: Slot, b: Slot)
    requires a.txs !! b.txs
    ensures a.Add(b).Less(b) == a
  {
  }

  /** What is active after `d` is activated can be cut into the two chunks that
      were there before. */
  lemma RoundTripParts(g: Cluster, s: State, d: Dep, s': State)
    requires Inactive(g, s, d) && Activated(g, s, d, s') && Indexed(g, s') && d in s'.depTop
    ensures Whole(g, s', d) == s.chunkIdx[d.child]
    ensures TopPart(g, s', d) == At(s, s.chunkIdx[d.parent])
    ensures BottomPart(g, s', d) == At(s, s.chunkIdx[d.child])
  {
    var top, bottom := s.chunkIdx[d.parent], s.chunkIdx[d.child];
    ChunkSlot(s, top, s.setTx[top]);
    ChunkSlot(s, top, s.setTx[bottom]);
    ChunksApart(g, s, top, bottom);
    assert At(s', top) == Activating(g, s, d, top);
    assert At(s', bottom) == Activating(g, s, d, bottom);
    AddLess(At(s, bottom), At(s, top));
  }

  lemma SameOtherSlots(s: State, d: Dep, s': State, side: set<nat>)
    requires d !in s.depTop && d in s'.depTop && s'.depTop - {d} == s.depTop
    ensures OtherSlots(s', d, side) == SlotsIn(s, side)
  {
    forall e | e in s.depTop
      ensures e != d && e in s'.depTop && s'.depTop[e] == s.depTop[e]
    {
      assert e in s'.depTop - {d};
    }
  }

  lemma WidenedBack(a: Slot, mark: nat, b: Slot)
    requires a.txs !! b.txs && mark !in b.txs
    ensures var a' := if mark in a.txs then a.Add(b) else a; a == if mark in a'.txs then a'.Less(b) else a'
  {
    AddLess(a, b);
  }

  /** What one slot holds, before and while `d` is active, in terms of the two
      chunks and their slots. */
  ghost function Wider(a: Slot, i: nat, d: Dep, top: Slot, bottom: Slot, slotsTop: set<nat>, slotsBottom: set<nat>,
                       k: nat): Slot
  {
    if i == k then bottom.Add(top)
    else if i in slotsTop && d.parent in a.txs then a.Add(bottom)
    else if i in slotsBottom && d.child in a.txs then a.Add(top)
    else a
  }

  ghost function Narrower(a: Slot, i: nat, d: Dep, top: Slot, bottom: Slot, slotsTop: set<nat>, slotsBottom: set<nat>,
                          k: nat): Slot
  {
    if i == k then bottom
    else if i in slotsTop then (if d.parent in a.txs then a.Less(bottom) else a)
    else if i in slotsBottom then (if d.child in a.txs then a.Less(top) else a)
    else a
  }

  lemma NarrowerAfterWider(a: Slot, i: nat, d: Dep, top: Slot, bottom: Slot, slotsTop: set<nat>, slotsBottom: set<nat>,
                           k: nat)
    requires top.txs !! bottom.txs && slotsTop !! slotsBottom && d.parent in top.txs && d.child in bottom.txs
    requires i == k ==> a == bottom
    requires i in slotsTop ==> a.txs <= top.txs
    requires i in slotsBottom ==> a.txs <= bottom.txs
    ensures Narrower(Wider(a, i, d, top, bottom, slotsTop, slotsBottom, k), i, d, top, bottom, slotsTop, slotsBottom, k)
         == a
  {
    if i in slotsTop {
      WidenedBack(a, d.parent, bottom);
    } else if i in slotsBottom {
      WidenedBack(a, d.child, top);
    }
  }

  lemma TwoChunksSlots(g: Cluster, s: State, d: Dep, i: nat)
    requires CanActivate(g, s, d) && i < |s.setTx|
    ensures var j, k := s.chunkIdx[d.parent], s.chunkIdx[d.child];
            && s.setTx[j] !! s.setTx[k] && d.parent in s.setTx[j] && d.child in s.setTx[k]
            && SlotsIn(s, s.setTx[j]) !! SlotsIn(s, s.setTx[k])
            && (i in SlotsIn(s, s.setTx[j]) ==> s.setTx[i] <= s.setTx[j])
            && (i in SlotsIn(s, s.setTx[k]) ==> s.setTx[i] <= s.setTx[k])
  {
    var j, k := s.chunkIdx[d.parent], s.chunkIdx[d.child];
    ChunksApart(g, s, j, k);
    forall x | x in SlotsIn(s, s.setTx[j])
      ensures x !in SlotsIn(s, s.setTx[k])
    {
      SlotsDisjoint(g, s, x, j, k);
    }
    if i in SlotsIn(s, s.setTx[j]) {
      SlotWithin(g, s, i, j);
    }
    if i in SlotsIn(s, s.setTx[k]) {
      SlotWithin(g, s, i, k);
    }
  }

  lemma ActivatingIsWider(g: Cluster, s: State, d: Dep, i: nat)
    requires Inactive(g, s, d) && i < |s.setTx|
    ensures var j, k := s.chunkIdx[d.parent], s.chunkIdx[d.child];
            Wider(At(s, i), i, d, At(s, j), At(s, k), SlotsIn(s, s.setTx[j]), SlotsIn(s, s.setTx[k]), k)
            == Activating(g, s, d, i)
  {
  }

  lemma DeactivatingIsNarrower(g: Cluster, s: State, d: Dep, i: nat, top: Slot, bottom: Slot, k: nat)
    requires Indexed(g, s) && d in s.depTop && i < |s.setTx| && k == Whole(g, s, d)
    requires top == TopPart(g, s, d) && bottom == BottomPart(g, s, d)
    ensures Deactivating(g, s, d, i)
         == Narrower(At(s, i), i, d, top, bottom, OtherSlots(s, d, top.txs), OtherSlots(s, d, bottom.txs), k)
  {
  }

  lemma RoundTripSlot(g: Cluster, s: State, d: Dep, s': State, i: nat)
    requires CanActivate(g, s, d) && i < |s.setTx|
    requires Indexed(g, s') && d in s'.depTop && d !in s.depTop && s'.depTop - {d} == s.depTop
    requires |s'.setTx| == |s.setTx| && At(s', i) == Activating(g, s, d, i)
    requires Whole(g, s', d) == s.chunkIdx[d.child]
    requires TopPart(g, s', d) == At(s, s.chunkIdx[d.parent]) && BottomPart(g, s', d) == At(s, s.chunkIdx[d.child])
    ensures Deactivating(g, s', d, i) == At(s, i)
  {
    var j, k := s.chunkIdx[d.parent], s.chunkIdx[d.child];
    var top, bottom := At(s, j), At(s, k);
    var slotsTop, slotsBottom := SlotsIn(s, s.setTx[j]), SlotsIn(s, s.setTx[k]);
    TwoChunksSlots(g, s, d, i);
    SameOtherSlots(s, d, s', s.setTx[j]);
    SameOtherSlots(s, d, s', s.setTx[k]);
    DeactivatingIsNarrower(g, s', d, i, top, bottom, k);
    ActivatingIsWider(g, s, d, i);
    NarrowerAfterWider(At(s, i), i, d, top, bottom, slotsTop, slotsBottom, k);
  }

  lemma SameSlots(s: State, s'': State)
    requires |s.setFee| == |s.setTx| && |s.setSize| == |s.setTx|
    requires |s''.setTx| == |s.setTx| && |s''.setFee| == |s.setTx| && |s''.setSize| == |s.setTx|
    requires forall i :: 0 <= i < |s.setTx| ==> At(s'', i) == At(s, i)
    ensures s''.setTx == s.setTx && s''.setFee == s.setFee && s''.setSize == s.setSize
  {
    forall i | 0 <= i < |s.setTx|
      ensures s''.setTx[i] == s.setTx[i] && s''.setFee[i] == s.setFee[i] && s''.setSize[i] == s.setSize[i]
    {
      assert At(s'', i) == At(s, i);
    }
  }

  lemma RoundTripSets(g: Cluster, s: State, d: Dep, s': State, s'': State)
    requires CanActivate(g, s, d) && Activated(g, s, d, s') && d !in s.depTop && s'.depTop - {d} == s.depTop
    requires Cuttable(g, s', d) && Deactivated(g, s', d, s'')
    ensures s''.setTx == s.setTx && s''.setFee == s.setFee && s''.setSize == s.setSize
  {
    RoundTripParts(g, s, d, s');
    forall i | 0 <= i < |s.setTx|
      ensures At(s'', i) == At(s, i)
    {
      RoundTripSlot(g, s, d, s', i);
    }
    SameSlots(s, s'');
  }

  lemma UpdatedBack<T>(r: seq<T>, x: T, top: nat, bottom: nat)
    requires top < |r| && bottom < |r|
    ensures r[bottom := x][top := r[top]][bottom := r[bottom]] == r
  {
  }

  lemma RoundTripReach(g: Cluster, s: State, d: Dep)
    requires Inactive(g, s, d) && SetsSummed(g, s) && ReachListed(g, s)
    ensures var top, bottom := s.chunkIdx[d.parent], s.chunkIdx[d.child];
            && s.reachUp[top] == Up(g, s.setTx[top]) - s.setTx[top]
            && s.reachUp[bottom] == Up(g, s.setTx[bottom]) - s.setTx[bottom]
            && s.reachDown[top] == Up(Mirror(g), s.setTx[top]) - s.setTx[top]
            && s.reachDown[bottom] == Up(Mirror(g), s.setTx[bottom]) - s.setTx[bottom]
  {
  }

  lemma RoundTripLists(g: Cluster, s: State, d: Dep)
    requires Inactive(g, s, d) && d !in s.depTop
    ensures s.activeChildren[d.parent] + {d.child} - {d.child} == s.activeChildren[d.parent]
    ensures s.chunkIdxs - {s.chunkIdx[d.parent]} + {s.chunkIdx[d.parent]} == s.chunkIdxs
    ensures forall x :: x in s.setTx[s.chunkIdx[d.parent]] ==> x in g.txs && s.chunkIdx[x] == s.chunkIdx[d.parent]
    ensures s.depTop[d := s.chunkIdx[d.parent]] - {d} == s.depTop
  {
    assert d.child !in s.activeChildren[d.parent];
  }

  lemma RoundTripOthers(g: Cluster, s: State, d: Dep, s': State, s'': State)
    requires Inactive(g, s, d) && Activated(g, s, d, s') && d !in s.depTop
    requires Cuttable(g, s', d) && Deactivated(g, s', d, s'')
    ensures s''.depTop == s.depTop && s''.chunkIdxs == s.chunkIdxs
    ensures s''.activeChildren == s.activeChildren
  {
    RoundTripLists(g, s, d);
    UpdatedBack(s.activeChildren, s'.activeChildren[d.parent], d.parent, d.parent);
  }

  lemma RoundTripIndex(g: Cluster, s: State, d: Dep, s': State, s'': State)
    requires Inactive(g, s, d) && Activated(g, s, d, s') && d !in s.depTop
    requires Cuttable(g, s', d) && Deactivated(g, s', d, s'')
    ensures s''.chunkIdx == s.chunkIdx
  {
    var top := s.chunkIdx[d.parent];
    RoundTripParts(g, s, d, s');
    forall x | 0 <= x < |s.chunkIdx|
      ensures s''.chunkIdx[x] == s.chunkIdx[x]
    {
      assert x in s.setTx[top] ==> x in g.txs && s.chunkIdx[x] == top;
    }
  }

  lemma RoundTripReaches(g: Cluster, s: State, d: Dep, s': State, s'': State)
    requires CanActivate(g, s, d) && Activated(g, s, d, s') && d !in s.depTop
    requires Cuttable(g, s', d) && Deactivated(g, s', d, s'')
    ensures s''.reachUp == s.reachUp && s''.reachDown == s.reachDown
  {
    var top, bottom := s.chunkIdx[d.parent], s.chunkIdx[d.child];
    RoundTripParts(g, s, d, s');
    RoundTripReach(g, s, d);
    UpdatedBack(s.reachUp, s'.reachUp[bottom], top, bottom);
    UpdatedBack(s.reachDown, s'.reachDown[bottom], top, bottom);
  }

  /** Deactivating the dependency that was just activated restores every array. */
  lemma RoundTrip(g: Cluster, s: State, d: Dep, s': State, s'': State)
    requires CanActivate(g, s, d) && Activated(g, s, d, s')
    requires Cuttable(g, s', d) && Deactivated(g, s', d, s'')
    ensures s'' == s
  {
    NotYetActive(g, s, d);
    RoundTripLists(g, s, d);
    RoundTripSets(g, s, d, s', s'');
    RoundTripOthers(g, s, d, s', s'');
    RoundTripIndex(g, s, d, s', s'');
    RoundTripReaches(g, s, d, s', s'');
  }
}
