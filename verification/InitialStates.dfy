/** The state with every transaction in a chunk of its own. */
module InitialStates {
  import opened Bits
  import opened Clusters
  import opened ForestStates
  import opened Forests
  import opened Loading
  import opened SetSums
  import opened Trees

  /** The first slots hold one transaction each, those of `done`, and every one
      of these is in the slot that it is listed in. */
  ghost predicate LeafSlots(g: Cluster, done: set<nat>, chunkIdx: seq<nat>, setTx: seq<set<nat>>, setFee: seq<int>,
                            setSize: seq<int>)
    requires ValidCluster(g) && done <= g.txs
  {
    && |chunkIdx| == |g.fees| && |setFee| == |setTx| && |setSize| == |setTx| && |setTx| == |done|
    && (forall x :: x in done ==> chunkIdx[x] < |setTx| && setTx[chunkIdx[x]] == {x})
    && forall k :: 0 <= k < |setTx| ==> LeafSlot(g, done, chunkIdx, k, setTx[k], setFee[k], setSize[k])
  }

  ghost predicate LeafSlot(g: Cluster, done: set<nat>, chunkIdx: seq<nat>, k: nat, txs: set<nat>, fee: int, size: int)
    requires ValidCluster(g) && done <= g.txs && |chunkIdx| == |g.fees|
  {
    exists x :: x in done && txs == {x} && chunkIdx[x] == k && fee == g.fees[x] && size == g.sizes[x]
  }

  lemma NextLeaf(g: Cluster, done: set<nat>, chunkIdx: seq<nat>, setTx: seq<set<nat>>, setFee: seq<int>,
                 setSize: seq<int>, x: nat)
    requires ValidCluster(g) && done <= g.txs && LeafSlots(g, done, chunkIdx, setTx, setFee, setSize)
    requires x in g.txs && x !in done
    ensures LeafSlots(g, done + {x}, chunkIdx[x := |setTx|], setTx + [{x}], setFee + [g.fees[x]],
                      setSize + [g.sizes[x]])
  {
    var chunkIdx', setTx', setFee', setSize' :=
      chunkIdx[x := |setTx|], setTx + [{x}], setFee + [g.fees[x]], setSize + [g.sizes[x]];
    forall k | 0 <= k < |setTx'|
      ensures LeafSlot(g, done + {x}, chunkIdx', k, setTx'[k], setFee'[k], setSize'[k])
    {
      if k < |setTx| {
        assert LeafSlot(g, done, chunkIdx, k, setTx[k], setFee[k], setSize[k]);
        var y :| y in done && setTx[k] == {y} && chunkIdx[y] == k && setFee[k] == g.fees[y] && setSize[k] == g.sizes[y];
        assert y in done + {x};
      } else {
        assert x in done + {x};
      }
    }
  }

  lemma LeavesFilled(g: Cluster, chunkIdx: seq<nat>, setTx: seq<set<nat>>, setFee: seq<int>, setSize: seq<int>)
    requires ValidCluster(g) && LeafSlots(g, g.txs, chunkIdx, setTx, setFee, setSize)
    ensures forall k :: 0 <= k < |setTx| ==> setTx[k] != {} && Within(setTx[k], |g.fees|)
  {
    forall k | 0 <= k < |setTx|
      ensures setTx[k] != {} && Within(setTx[k], |g.fees|)
    {
      assert LeafSlot(g, g.txs, chunkIdx, k, setTx[k], setFee[k], setSize[k]);
    }
  }

  ghost predicate InitialState(g: Cluster, s: State) {
    && ValidCluster(g) && (forall x :: x in g.txs ==> x !in g.parents[x])
    && LeafSlots(g, g.txs, s.chunkIdx, s.setTx, s.setFee, s.setSize)
    && |s.activeChildren| == |g.fees| && (forall x :: 0 <= x < |g.fees| ==> s.activeChildren[x] == {})
    && s.depTop == map[]
    && |s.reachUp| == |s.setTx| && |s.reachDown| == |s.setTx|
    && (forall x :: x in g.txs ==>
          s.reachUp[s.chunkIdx[x]] == g.parents[x] && s.reachDown[s.chunkIdx[x]] == g.children[x])
    && s.chunkIdxs == FirstBits(|s.setTx|)
  }

  lemma LeafAt(g: Cluster, s: State, k: nat) returns (x: nat)
    requires InitialState(g, s) && k < |s.setTx|
    ensures x in g.txs && s.setTx[k] == {x} && s.chunkIdx[x] == k && s.setFee[k] == g.fees[x]
    ensures s.setSize[k] == g.sizes[x]
  {
    assert LeafSlot(g, g.txs, s.chunkIdx, k, s.setTx[k], s.setFee[k], s.setSize[k]);
    x :| x in g.txs && s.setTx[k] == {x} && s.chunkIdx[x] == k && s.setFee[k] == g.fees[x]
         && s.setSize[k] == g.sizes[x];
  }

  lemma UpOfOne(g: Cluster, x: nat)
    requires ValidCluster(g) && x in g.txs && x !in g.parents[x]
    ensures Up(g, {x}) - {x} == g.parents[x]
  {
    assert Up(g, {x}) == g.parents[x];
  }

  lemma InitialIndexed(g: Cluster, s: State)
    requires InitialState(g, s)
    ensures Indexed(g, s)
  {
    forall k, x | k in s.chunkIdxs && x in s.setTx[k]
      ensures x in g.txs && s.chunkIdx[x] == k
    {
      var y := LeafAt(g, s, k);
    }
  }

  lemma InitialSums(g: Cluster, s: State)
    requires InitialState(g, s)
    ensures Shaped(g, s) && SetsSummed(g, s)
  {
    forall k | 0 <= k < |s.setTx|
      ensures s.setTx[k] <= g.txs && s.setFee[k] == Sum(g.fees, s.setTx[k]) && s.setSize[k] == Sum(g.sizes, s.setTx[k])
    {
      var x := LeafAt(g, s, k);
      SumSingle(g.fees, x);
      SumSingle(g.sizes, x);
    }
  }

  lemma InitialReach(g: Cluster, s: State)
    requires InitialState(g, s) && Shaped(g, s) && SetsSummed(g, s)
    ensures ReachListed(g, s)
  {
    MirrorValid(g);
    forall k | k in s.chunkIdxs
      ensures s.reachUp[k] == Up(g, s.setTx[k]) - s.setTx[k]
      ensures s.reachDown[k] == Up(Mirror(g), s.setTx[k]) - s.setTx[k]
    {
      var x := LeafAt(g, s, k);
      assert x !in g.children[x];
      UpOfOne(g, x);
      UpOfOne(Mirror(g), x);
    }
  }

  lemma InitialTrees(g: Cluster, s: State)
    requires InitialState(g, s) && Indexed(g, s)
    ensures ValidForest(g, TreesOf(g, s)) && Singles(TreesOf(g, s), {})
  {
    var t := TreesOf(g, s);
    forall k | k in t
      ensures exists x :: x in g.txs && t[k] == Leaf(x) && s.chunkIdx[x] == k
    {
      var x := LeafAt(g, s, k);
      assert t[k] == Leaf(x);
    }
    forall k | k in t
      ensures ValidTree(t[k]) && t[k].txs <= g.txs && t[k].tops == map[] && |t[k].txs| == 1
    {
      var x :| x in g.txs && t[k] == Leaf(x) && s.chunkIdx[x] == k;
      LeafValid(x);
    }
  }

  lemma InitialValid(g: Cluster, s: State)
    requires InitialState(g, s)
    ensures ValidState(g, s) && Singles(TreesOf(g, s), {})
  {
    InitialIndexed(g, s);
    InitialSums(g, s);
    InitialReach(g, s);
    InitialTrees(g, s);
  }
}
