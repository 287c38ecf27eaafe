/** The spanning-forest state: chunks of transactions, merged and split by
    activating and deactivating dependencies. */
module SpanningForest {
  import opened Bits
  import opened Candidates
  import opened ChunkOrders
  import opened Climbs
  import opened ClusterGraphs
  import opened Clusters
  import opened Deactivation
  import opened DepGraphs
  import opened EmissionOrders
  import opened Emissions
  import opened EmittedOrders
  import opened FeeRates
  import opened ForestStates
  import opened Forests
  import opened Improving
  import opened InitialStates
  import opened Loading
  import opened Minimality
  import opened Minimizing
  import opened Optimality
  import opened Options
  import opened Orders
  import opened Sequences
  import opened SetSums
  import opened Trees
  import opened Watching
  import C = Chunking
  import D = Diagrams

  class SpanningForestState {
    const fees: seq<int>
    const sizes: seq<int>
    const transactions: set<nat>
    const parents: seq<set<nat>>
    const children: seq<set<nat>>
    var activeChildren: seq<set<nat>>
    var chunkIdx: seq<nat>
    var depTop: map<Dep, nat>
    var setTx: seq<set<nat>>
    var setFee: seq<int>
    var setSize: seq<int>
    var reachUp: seq<set<nat>>
    var reachDown: seq<set<nat>>
    var chunkIdxs: set<nat>
    var suboptimal: seq<nat>
    var suboptimalIdxs: set<nat>
    var nonminimal: seq<Pending>
    var cost: int

    /** Puts every transaction in a chunk of its own. */
    constructor (depgraph: DepGraph)
      requires depgraph.Valid() && Acyclic(depgraph.Value()) && Sized(depgraph.Value())
      ensures G() == ClusterOf(depgraph.Value()) && Valid() && Singles(Trees(), {})
      ensures suboptimal == [] && suboptimalIdxs == {} && nonminimal == []
    {
      var parents', children', numDeps, s := Singletons(depgraph);
      fees, sizes, transactions := depgraph.fees, depgraph.sizes, depgraph.positions;
      parents, children := parents', children';
      activeChildren, chunkIdx, depTop := s.activeChildren, s.chunkIdx, s.depTop;
      setTx, setFee, setSize, reachUp, reachDown := s.setTx, s.setFee, s.setSize, s.reachUp, s.reachDown;
      chunkIdxs := s.chunkIdxs;
      suboptimal, suboptimalIdxs, nonminimal := [], {}, [];
      cost := 39 * |s.setTx| + 48 * |s.setTx| + 4 * numDeps;
      new;
      assert G() == ClusterOf(depgraph.Value()) && Value() == s;
    }

    static method Singletons(depgraph: DepGraph)
      returns (parents: seq<set<nat>>, children: seq<set<nat>>, numDeps: nat, s: State)
      requires depgraph.Valid() && Acyclic(depgraph.Value()) && Sized(depgraph.Value())
      ensures parents == ClusterOf(depgraph.Value()).parents && children == ClusterOf(depgraph.Value()).children
      ensures ValidState(ClusterOf(depgraph.Value()), s) && Singles(TreesOf(ClusterOf(depgraph.Value()), s), {})
    {
      ghost var g := ClusterOf(depgraph.Value());
      ClusterOfValid(depgraph.Value());
      parents, children, numDeps := Relatives(depgraph);
      var chunkIdx, setTx, setFee, setSize := Leaves(depgraph.fees, depgraph.sizes, depgraph.positions, g);
      LeavesFilled(g, chunkIdx, setTx, setFee, setSize);
      var up, down := Reaches(setTx, parents, children, chunkIdx, depgraph.positions);
      s := State(seq(|depgraph.fees|, _ => {}), chunkIdx, map[], setTx, setFee, setSize, up, down, FirstBits(|setTx|));
      assert InitialState(g, s);
      InitialValid(g, s);
    }

    /** The reduced parents of each transaction, and its children by them. */
    static method Relatives(depgraph: DepGraph) returns (parents: seq<set<nat>>, children: seq<set<nat>>, numDeps: nat)
      requires depgraph.Valid() && Acyclic(depgraph.Value()) && Sized(depgraph.Value())
      ensures parents == ClusterOf(depgraph.Value()).parents && children == ClusterOf(depgraph.Value()).children
    {
      ghost var g := depgraph.Value();
      var n := |depgraph.fees|;
      parents, children, numDeps := seq(n, _ => {}), seq(n, _ => {}), 0;
      var todo := depgraph.positions;
      while todo != {}
        invariant todo <= g.positions && RowsOf(g, g.positions - todo, parents, children)
      {
        var tx := Lowest(todo);
        var up := depgraph.ReducedParents(tx);
        var more := UnionInto(children, up, {tx});
        RowsNext(g, g.positions - todo, parents, children, tx, more);
        SeenOneMore(g.positions, todo, tx);
        parents := parents[tx := up];
        children := more;
        numDeps := numDeps + |up|;
        todo := todo - {tx};
      }
      assert g.positions - todo == g.positions;
      AllRows(g, parents, children);
    }

    static method Leaves(fees: seq<int>, sizes: seq<int>, txs: set<nat>, ghost g: Cluster)
      returns (chunkIdx: seq<nat>, setTx: seq<set<nat>>, setFee: seq<int>, setSize: seq<int>)
      requires ValidCluster(g) && g.fees == fees && g.sizes == sizes && g.txs == txs
      ensures LeafSlots(g, txs, chunkIdx, setTx, setFee, setSize)
    {
      chunkIdx, setTx, setFee, setSize := seq(|fees|, _ => 0), [], [], [];
      var todo := txs;
      assert txs - todo == {};
      while todo != {}
        invariant todo <= txs && LeafSlots(g, txs - todo, chunkIdx, setTx, setFee, setSize)
      {
        var tx := Lowest(todo);
        NextLeaf(g, txs - todo, chunkIdx, setTx, setFee, setSize, tx);
        chunkIdx := chunkIdx[tx := |setTx|];
        setTx, setFee, setSize := setTx + [{tx}], setFee + [fees[tx]], setSize + [sizes[tx]];
        assert txs - (todo - {tx}) == (txs - todo) + {tx};
        todo := todo - {tx};
      }
      assert txs - todo == txs;
    }

    static method Reaches(setTx: seq<set<nat>>, parents: seq<set<nat>>, children: seq<set<nat>>,
                          ghost chunkIdx: seq<nat>, ghost txs: set<nat>)
      returns (up: seq<set<nat>>, down: seq<set<nat>>)
      requires |children| == |parents| && |chunkIdx| == |parents|
      requires forall k :: 0 <= k < |setTx| ==> setTx[k] != {} && Within(setTx[k], |parents|)
      requires forall x :: x in txs ==> x < |parents| && chunkIdx[x] < |setTx| && setTx[chunkIdx[x]] == {x}
      ensures |up| == |setTx| && |down| == |setTx|
      ensures forall x :: x in txs ==> up[chunkIdx[x]] == parents[x] && down[chunkIdx[x]] == children[x]
    {
      up, down := [], [];
      for chunk := 0 to |setTx|
        invariant |up| == chunk && |down| == chunk
        invariant forall k :: 0 <= k < chunk ==>
                  up[k] == parents[Lowest(setTx[k])] && down[k] == children[Lowest(setTx[k])]
      {
        var tx := Lowest(setTx[chunk]);
        up, down := up + [parents[tx]], down + [children[tx]];
      }
      assert forall x :: x in txs ==> Lowest(setTx[chunkIdx[x]]) in setTx[chunkIdx[x]];
    }

    ghost function G(): Cluster {
      Cluster(fees, sizes, parents, children, transactions)
    }

    ghost function Value(): State
      reads this
    {
      State(activeChildren, chunkIdx, depTop, setTx, setFee, setSize, reachUp, reachDown, chunkIdxs)
    }

    ghost function Queues(): (seq<nat>, set<nat>, seq<Pending>)
      reads this
    {
      (suboptimal, suboptimalIdxs, nonminimal)
    }

    ghost predicate Valid()
      reads this
    {
      ValidState(G(), Value())
    }

    ghost function Trees(): Forest
      requires Valid()
      reads this
    {
      TreesOf(G(), Value())
    }

    /** Adds `part` to every top set within `side` that has `mark`, or takes it
        away. */
    method AdjustTops(side: set<nat>, mark: nat, part: Slot, add: bool)
      requires Shaped(G(), Value()) && ActiveListed(G(), Value()) && side <= transactions
      requires forall d, e :: d in depTop && e in depTop && depTop[d] == depTop[e] ==> d == e
      modifies `setTx, `setFee, `setSize
      ensures Adjusted(old(Value()), SlotsIn(old(Value()), side), mark, part, add, Value())
    {
      ghost var s := Value();
      AdjustNone(s, mark, part, add);
      var todo := side;
      ghost var done: set<nat> := {};
      assert SlotsIn(s, side - todo) == {};
      while todo != {}
        invariant todo <= side && done == SlotsIn(s, side - todo)
        invariant Adjusted(s, done, mark, part, add, Value())
      {
        var tx := Lowest(todo);
        SlotsWith(G(), s, side - todo, tx);
        AdjustKids(s, done, tx, mark, part, add);
        done := done + KidSlots(s, tx, s.activeChildren[tx]);
        assert side - (todo - {tx}) == (side - todo) + {tx};
        todo := todo - {tx};
      }
      assert side - todo == side;
    }

    /** The same for the dependencies of `tx`. */
    method AdjustKids(ghost s: State, ghost done: set<nat>, tx: nat, mark: nat, part: Slot, add: bool)
      requires Shaped(G(), s) && ActiveListed(G(), s) && tx in transactions
      requires forall d, e :: d in s.depTop && e in s.depTop && s.depTop[d] == s.depTop[e] ==> d == e
      requires forall c :: c in s.activeChildren[tx] ==> Dep(tx, c) in s.depTop && s.depTop[Dep(tx, c)] !in done
      requires Adjusted(s, done, mark, part, add, Value())
      modifies `setTx, `setFee, `setSize
      ensures forall c :: c in s.activeChildren[tx] ==> Dep(tx, c) in s.depTop
      ensures Adjusted(s, done + KidSlots(s, tx, s.activeChildren[tx]), mark, part, add, Value())
    {
      var kids := activeChildren[tx];
      var todo := kids;
      ghost var slots := done;
      assert KidSlots(s, tx, {}) == {} && kids - todo == {};
      while todo != {}
        invariant todo <= kids && slots == done + KidSlots(s, tx, kids - todo)
        invariant Adjusted(s, slots, mark, part, add, Value())
      {
        var child := Lowest(todo);
        var d := depTop[Dep(tx, child)];
        NextKid(s, tx, kids, todo, child);
        AdjustSlot(s, slots, d, mark, part, add);
        slots := slots + {d};
        todo := todo - {child};
      }
      assert kids - todo == kids;
    }

    /** Puts the transactions of `side` in the chunk `k`. */
    method Relabel(side: set<nat>, k: nat)
      requires forall x :: x in side ==> x < |chunkIdx|
      modifies `chunkIdx
      ensures |chunkIdx| == old(|chunkIdx|)
      ensures forall x :: 0 <= x < |chunkIdx| ==> chunkIdx[x] == if x in side then k else old(chunkIdx)[x]
    {
      var todo := side;
      while todo != {}
        invariant todo <= side && |chunkIdx| == old(|chunkIdx|)
        invariant forall x :: 0 <= x < |chunkIdx| ==> chunkIdx[x] == if x in side - todo then k else old(chunkIdx)[x]
      {
        var x := Lowest(todo);
        todo := todo - {x};
        chunkIdx := chunkIdx[x := k];
      }
    }

    /** Activates the dependency of `child` on `parent`, and names the chunk. */
    method Activate(parent: nat, child: nat) returns (bottom: nat)
      requires CanActivate(G(), Value(), Dep(parent, child))
      modifies this
      ensures Queues() == old(Queues())
      ensures Activated(G(), old(Value()), Dep(parent, child), Value()) && Valid()
      ensures bottom == old(chunkIdx)[child] && cost > old(cost)
      ensures Joined(old(Trees()), old(chunkIdx)[parent], bottom, Dep(parent, child), Trees())
    {
      ghost var s := Value();
      bottom := ActivateArrays(parent, child);
      ActivateValid(G(), s, Dep(parent, child), Value());
    }

    method ActivateArrays(parent: nat, child: nat) returns (bottom: nat)
      requires Inactive(G(), Value(), Dep(parent, child)) && setTx[chunkIdx[parent]] <= transactions
      requires setTx[chunkIdx[child]] <= transactions
      modifies this
      ensures Queues() == old(Queues())
      ensures Activated(G(), old(Value()), Dep(parent, child), Value())
      ensures bottom == old(chunkIdx)[child] && cost > old(cost)
    {
      ghost var s, d := Value(), Dep(parent, child);
      var top := chunkIdx[parent];
      bottom := chunkIdx[child];
      var topSet := Slot(setTx[top], setFee[top], setSize[top]);
      var botSet := Slot(setTx[bottom], setFee[bottom], setSize[bottom]);
      assert parent in topSet.txs;
      ghost var s1, s2 := WidenBoth(parent, child, bottom, topSet, botSet);
      FinishActivation(parent, child, top, bottom, topSet, botSet);
      ActivatedFromLoops(G(), s, d, s1, s2, Value());
    }

    /** Both loops of an activation. */
    method WidenBoth(parent: nat, child: nat, bottom: nat, topSet: Slot, botSet: Slot)
      returns (ghost s1: State, ghost s2: State)
      requires Shaped(G(), Value()) && ActiveListed(G(), Value()) && topSet.txs <= transactions
      requires botSet.txs <= transactions
      requires forall d, e :: d in depTop && e in depTop && depTop[d] == depTop[e] ==> d == e
      modifies this
      ensures Queues() == old(Queues()) && cost == old(cost)
      ensures Adjusted(old(Value()), SlotsIn(old(Value()), topSet.txs), parent, botSet, true, s1)
      ensures Adjusted(s1, SlotsIn(old(Value()), botSet.txs), child, topSet, true, s2)
      ensures Value() == s2.(chunkIdx := chunkIdx) && |chunkIdx| == old(|chunkIdx|) && Shaped(G(), Value())
      ensures forall x :: 0 <= x < |chunkIdx| ==> chunkIdx[x] == if x in topSet.txs then bottom else old(chunkIdx)[x]
    {
      ghost var s := Value();
      AdjustTops(topSet.txs, parent, botSet, true);
      s1 := Value();
      AdjustTops(botSet.txs, child, topSet, true);
      s2 := Value();
      assert SlotsIn(s1, botSet.txs) == SlotsIn(s, botSet.txs);
      Relabel(topSet.txs, bottom);
    }

    /** What an activation does after its loops. */
    method FinishActivation(parent: nat, child: nat, top: nat, bottom: nat, topSet: Slot, botSet: Slot)
      requires Shaped(G(), Value()) && top < |setTx| && bottom < |setTx| && parent < |activeChildren|
      requires parent in topSet.txs
      modifies `activeChildren, `depTop, `setTx, `setFee, `setSize, `reachUp, `reachDown, `chunkIdxs, `cost
      ensures Shaped(G(), Value())
      ensures var m := botSet.Add(topSet);
              && setTx == old(setTx)[bottom := m.txs]
              && setFee == old(setFee)[bottom := m.fee] && setSize == old(setSize)[bottom := m.size]
              && chunkIdxs == old(chunkIdxs) - {top} && depTop == old(depTop)[Dep(parent, child) := top]
              && activeChildren == old(activeChildren)[parent := old(activeChildren)[parent] + {child}]
              && reachUp == old(reachUp)[bottom := old(reachUp)[bottom] + old(reachUp)[top] - m.txs]
              && reachDown == old(reachDown)[bottom := old(reachDown)[bottom] + old(reachDown)[top] - m.txs]
      ensures cost > old(cost)
    {
      JoinSlots(top, bottom, topSet, botSet);
      depTop := depTop[Dep(parent, child) := top];
      activeChildren := activeChildren[parent := activeChildren[parent] + {child}];
      chunkIdxs := chunkIdxs - {top};
      assert parent in setTx[bottom];
      cost := cost + 10 * (|setTx[bottom]| - 1) + 1;
    }

    /** The slot `bottom` gets the sums and the reach of both. */
    method JoinSlots(top: nat, bottom: nat, topSet: Slot, botSet: Slot)
      requires |setTx| == |setFee| == |setSize| == |reachUp| == |reachDown| && top < |setTx| && bottom < |setTx|
      modifies `setTx, `setFee, `setSize, `reachUp, `reachDown
      ensures var m := botSet.Add(topSet);
              && setTx == old(setTx)[bottom := m.txs]
              && setFee == old(setFee)[bottom := m.fee] && setSize == old(setSize)[bottom := m.size]
              && reachUp == old(reachUp)[bottom := old(reachUp)[bottom] + old(reachUp)[top] - m.txs]
              && reachDown == old(reachDown)[bottom := old(reachDown)[bottom] + old(reachDown)[top] - m.txs]
    {
      var merged := botSet.txs + topSet.txs;
      setTx := setTx[bottom := merged];
      setFee := setFee[bottom := botSet.fee + topSet.fee];
      setSize := setSize[bottom := botSet.size + topSet.size];
      reachUp := reachUp[bottom := reachUp[bottom] + reachUp[top] - merged];
      reachDown := reachDown[bottom := reachDown[bottom] + reachDown[top] - merged];
    }

    /** Deactivates an active dependency, and names the top and bottom chunks. */
    method Deactivate(parent: nat, child: nat) returns (top: nat, bottom: nat)
      requires Active(G(), Value(), Dep(parent, child))
      modifies this
      ensures Queues() == old(Queues())
      ensures Cuttable(G(), old(Value()), Dep(parent, child))
      ensures Deactivated(G(), old(Value()), Dep(parent, child), Value()) && Valid()
      ensures top == old(depTop)[Dep(parent, child)] && bottom == old(chunkIdx)[parent] && cost > old(cost)
      ensures Parted(old(Trees()), bottom, Dep(parent, child), top, Trees())
    {
      ghost var s := Value();
      ActiveIsCuttable(G(), s, Dep(parent, child));
      top, bottom := DeactivateArrays(parent, child);
      DeactivateValid(G(), s, Dep(parent, child), Value());
    }

    /** Deactivating what was just activated restores the forest. */
    method ActivateAndBack(parent: nat, child: nat)
      requires CanActivate(G(), Value(), Dep(parent, child))
      modifies this
      ensures Value() == old(Value()) && Queues() == old(Queues()) && cost > old(cost)
    {
      ghost var s := Value();
      var bottom := Activate(parent, child);
      ghost var s' := Value();
      var _, _ := Deactivate(parent, child);
      RoundTrip(G(), s, Dep(parent, child), s', Value());
    }

    method DeactivateArrays(parent: nat, child: nat) returns (top: nat, bottom: nat)
      requires Cuttable(G(), Value(), Dep(parent, child))
      modifies this
      ensures Queues() == old(Queues())
      ensures Deactivated(G(), old(Value()), Dep(parent, child), Value())
      ensures top == old(depTop)[Dep(parent, child)] && bottom == old(chunkIdx)[parent] && cost > old(cost)
    {
      ghost var s, d := Value(), Dep(parent, child);
      var topSet, botSet;
      top, bottom, topSet, botSet := StartDeactivation(parent, child);
      StartingListed(G(), s, d);
      ghost var s1, s1', s2 := NarrowBoth(parent, child, top, topSet, botSet);
      SetReach(top, topSet.txs, bottom, botSet.txs);
      DeactivatedFromLoops(G(), s, d, s1, s1', s2, Value());
    }

    /** Both loops of a deactivation. */
    method NarrowBoth(parent: nat, child: nat, top: nat, topSet: Slot, botSet: Slot)
      returns (ghost s1: State, ghost s1': State, ghost s2: State)
      requires Shaped(G(), Value()) && ActiveListed(G(), Value()) && topSet.txs <= transactions
      requires botSet.txs <= transactions
      requires forall d, e :: d in depTop && e in depTop && depTop[d] == depTop[e] ==> d == e
      modifies this
      ensures Queues() == old(Queues()) && cost == old(cost)
      ensures Adjusted(old(Value()), SlotsIn(old(Value()), topSet.txs), parent, botSet, false, s1)
      ensures s1' == s1.(chunkIdx := s1'.chunkIdx) && |s1'.chunkIdx| == old(|chunkIdx|)
      ensures forall x :: 0 <= x < old(|chunkIdx|) ==>
                s1'.chunkIdx[x] == if x in topSet.txs then top else old(chunkIdx)[x]
      ensures Adjusted(s1', SlotsIn(old(Value()), botSet.txs), child, topSet, false, s2)
      ensures Value() == s2 && Shaped(G(), Value())
    {
      ghost var s := Value();
      AdjustTops(topSet.txs, parent, botSet, false);
      s1 := Value();
      Relabel(topSet.txs, top);
      s1' := Value();
      assert SlotsIn(s1', botSet.txs) == SlotsIn(s, botSet.txs);
      AdjustTops(botSet.txs, child, topSet, false);
      s2 := Value();
    }

    /** What a deactivation does before its loops. */
    method StartDeactivation(parent: nat, child: nat) returns (top: nat, bottom: nat, topSet: Slot, botSet: Slot)
      requires Cuttable(G(), Value(), Dep(parent, child))
      modifies this
      ensures Queues() == old(Queues())
      ensures Value() == Starting(G(), old(Value()), Dep(parent, child))
      ensures top == old(depTop)[Dep(parent, child)] && bottom == old(chunkIdx)[parent] && cost > old(cost)
      ensures topSet == TopPart(G(), old(Value()), Dep(parent, child))
      ensures botSet == BottomPart(G(), old(Value()), Dep(parent, child))
    {
      top, bottom := depTop[Dep(parent, child)], chunkIdx[parent];
      var ntx := |setTx[bottom]|;
      assert parent in setTx[bottom];
      topSet := Slot(setTx[top], setFee[top], setSize[top]);
      botSet := Slot(setTx[bottom], setFee[bottom], setSize[bottom]).Less(topSet);
      depTop := depTop - {Dep(parent, child)};
      activeChildren := activeChildren[parent := activeChildren[parent] - {child}];
      chunkIdxs := chunkIdxs + {top};
      setTx, setFee, setSize :=
        setTx[bottom := botSet.txs], setFee[bottom := botSet.fee], setSize[bottom := botSet.size];
      cost := cost + 11 * (ntx - 1) + 8;
    }

    /** What the two parts of a cut can reach. */
    method SetReach(top: nat, topTx: set<nat>, bottom: nat, botTx: set<nat>)
      requires ValidCluster(G()) && topTx <= transactions && botTx <= transactions
      requires top < |reachUp| && bottom < |reachUp| && |reachDown| == |reachUp|
      modifies this
      ensures Queues() == old(Queues()) && cost == old(cost)
      ensures Value() == old(Value()).(reachUp := reachUp, reachDown := reachDown)
      ensures ValidCluster(Mirror(G()))
      ensures reachUp == old(reachUp)[top := Up(G(), topTx) - topTx][bottom := Up(G(), botTx) - botTx]
      ensures reachDown
           == old(reachDown)[top := Up(Mirror(G()), topTx) - topTx][bottom := Up(Mirror(G()), botTx) - botTx]
    {
      MirrorValid(G());
      var topParents := UnionOf(parents, topTx);
      var topChildren := UnionOf(children, topTx);
      var botParents := UnionOf(parents, botTx);
      var botChildren := UnionOf(children, botTx);
      assert topParents == Up(G(), topTx) && botParents == Up(G(), botTx);
      assert topChildren == Up(Mirror(G()), topTx) && botChildren == Up(Mirror(G()), botTx);
      reachUp := reachUp[top := topParents - topTx];
      reachDown := reachDown[top := topChildren - topTx];
      reachUp := reachUp[bottom := botParents - botTx];
      reachDown := reachDown[bottom := botChildren - botTx];
    }

    method SetPending(queue: seq<Pending>, work: nat)
      modifies `nonminimal, `cost
      ensures nonminimal == queue && Value() == old(Value()) && cost == old(cost) + work
    {
      nonminimal := queue;
      cost := cost + work;
    }

    method Spend(work: nat)
      modifies `cost
      ensures cost == old(cost) + work && Value() == old(Value())
    {
      cost := cost + work;
    }

    /** A random number below `upper`: any of them, whatever the seed. */
    static method RandRange(upper: nat) returns (r: nat)
      requires upper > 0
      ensures r < upper
    {
      r :| r < upper;
    }

    static method Rand64() returns (r: nat)
    {
      r :| r < 0x1_0000_0000_0000_0000;
    }

    static method RandBool() returns (r: bool)
    {
      r :| r || !r;
    }

    /** Activates a random dependency of `bottom` on `top`. */
    method MergeChunks(top: nat, bottom: nat) returns (merged: nat, ghost d: Dep)
      requires Valid() && top in chunkIdxs && bottom in chunkIdxs && top != bottom
      requires Needs(G(), setTx[bottom], setTx[top])
      modifies this
      ensures Queues() == old(Queues())
      ensures Valid() && merged == bottom && cost > old(cost)
      ensures Joined(old(Trees()), top, bottom, d, Trees())
    {
      ghost var s, t := Value(), Trees();
      NeedsCounted(G(), setTx[top], setTx[bottom]);
      var tx, child := ChooseMerge(setTx[top], setTx[bottom]);
      d := Dep(tx, child);
      assert Value() == s;
      Pickable(G(), s, top, bottom, d);
      merged := Activate(tx, child);
      assert Joined(t, top, bottom, d, Trees());
    }

    /** A random dependency of a transaction of `botTx` on one of `topTx`. */
    method ChooseMerge(topTx: set<nat>, botTx: set<nat>) returns (tx: nat, child: nat)
      requires Within(topTx, |children|) && DepCount(children, topTx, botTx) > 0
      modifies this
      ensures Queues() == old(Queues())
      ensures Value() == old(Value()) && cost >= old(cost)
      ensures tx in topTx && child in children[tx] && child in botTx
    {
      var numDeps := CountDeps(topTx, botTx);
      var pick := RandRange(numDeps);
      var steps;
      tx, child, steps := ChooseDep(topTx, botTx, pick);
      cost := cost + 2 * |topTx| + 3 * steps + 5;
    }

    method CountDeps(topTx: set<nat>, botTx: set<nat>) returns (numDeps: nat)
      requires Within(topTx, |children|)
      ensures numDeps == DepCount(children, topTx, botTx)
    {
      numDeps := 0;
      var todo := topTx;
      while todo != {}
        invariant todo <= topTx && numDeps + DepCount(children, todo, botTx) == DepCount(children, topTx, botTx)
      {
        var tx := Lowest(todo);
        numDeps := numDeps + |children[tx] * botTx|;
        todo := todo - {tx};
      }
    }

    /** The dependency that `pick` others come before. */
    method ChooseDep(topTx: set<nat>, botTx: set<nat>, pick: nat) returns (tx: nat, child: nat, steps: nat)
      requires Within(topTx, |children|) && pick < DepCount(children, topTx, botTx)
      ensures tx in topTx && child in children[tx] && child in botTx
    {
      var left: nat := pick;
      steps := 0;
      var todo := topTx;
      while todo != {}
        invariant todo <= topTx && left < DepCount(children, todo, botTx)
      {
        tx := Lowest(todo);
        steps := steps + 1;
        var intersect := children[tx] * botTx;
        var count := |intersect|;
        if left < count {
          child := PickTx(intersect, left);
          return;
        }
        left := left - count;
        todo := todo - {tx};
      }
      assert false;
    }

    /** The cluster, upside down for a merge downward. */
    ghost function View(downward: bool): Cluster {
      if downward then Mirror(G()) else G()
    }

    /** The chunk to merge `chunk` with, or none. Upward, the lowest-feerate
        chunk it depends on among those at or below its own feerate; downward,
        the highest-feerate one depending on it among those at or above. */
    method PickMergeCandidate(chunk: nat, downward: bool) returns (best: Option<nat>)
      requires Valid() && chunk in chunkIdxs
      modifies `cost
      ensures Valid() && Value() == old(Value()) && cost >= old(cost)
      ensures Chunked(View(downward), Trees()) && chunk in Trees()
      ensures best.None? ==> AtRest(View(downward), Trees(), chunk)
      ensures best.Some? ==> MergeCandidate(View(downward), Trees(), chunk, best.value)
    {
      var steps;
      best, steps := ScanReached(chunk, downward);
      Spend(8 * steps);
    }

    method ScanReached(chunk: nat, downward: bool) returns (best: Option<nat>, steps: nat)
      requires Valid() && chunk in chunkIdxs
      ensures Chunked(View(downward), Trees()) && chunk in Trees()
      ensures best.None? ==> AtRest(View(downward), Trees(), chunk)
      ensures best.Some? ==> MergeCandidate(View(downward), Trees(), chunk, best.value)
    {
      ghost var v, t := View(downward), Trees();
      ScanStart(G(), Value(), chunk, downward);
      var bestFee, bestSize := setFee[chunk], setSize[chunk];
      best := None;
      var bestTiebreak: nat := 0;
      var todo := if downward then reachDown[chunk] else reachUp[chunk];
      steps := 0;
      ghost var seen: set<nat> := {};
      while todo != {}
        invariant Scanned(v, t, chunk, seen, best, ViewRate(bestFee, bestSize, downward))
        invariant todo == Unseen(v, t, chunk, seen)
        invariant best.None? ==> bestTiebreak == 0
        decreases |todo|
      {
        steps := steps + 1;
        var reached;
        reached, best, bestFee, bestSize, bestTiebreak :=
          Consider(chunk, downward, Lowest(todo), seen, best, bestFee, bestSize, bestTiebreak);
        todo := todo - setTx[reached];
        seen := seen + {reached};
      }
      ScanEnd(v, t, chunk, seen, best, ViewRate(bestFee, bestSize, downward));
    }

    /** Considers the chunk of `first`, which `chunk` reaches. */
    method Consider(chunk: nat, downward: bool, first: nat, ghost seen: set<nat>,
                    best: Option<nat>, bestFee: int, bestSize: int, bestTiebreak: nat)
      returns (reached: nat, best': Option<nat>, bestFee': int, bestSize': int, bestTiebreak': nat)
      requires Valid() && chunk in chunkIdxs && Chunked(View(downward), Trees()) && chunk in Trees()
      requires Scanned(View(downward), Trees(), chunk, seen, best, ViewRate(bestFee, bestSize, downward))
      requires first in Unseen(View(downward), Trees(), chunk, seen) && (best.None? ==> bestTiebreak == 0)
      ensures best'.None? ==> bestTiebreak' == 0
      ensures reached in Trees() && reached < |setTx|
      ensures Scanned(View(downward), Trees(), chunk, seen + {reached}, best', ViewRate(bestFee', bestSize', downward))
      ensures Unseen(View(downward), Trees(), chunk, seen) - setTx[reached]
           == Unseen(View(downward), Trees(), chunk, seen + {reached})
      ensures |Unseen(View(downward), Trees(), chunk, seen + {reached})|
            < |Unseen(View(downward), Trees(), chunk, seen)|
    {
      ghost var v, t := View(downward), Trees();
      SeenChunk(G(), Value(), chunk, downward, seen, first);
      reached := chunkIdx[first];
      best', bestFee', bestSize', bestTiebreak' := best, bestFee, bestSize, bestTiebreak;
      var fee, size := setFee[reached], setSize[reached];
      var crossA, crossB;
      if downward {
        crossA, crossB := bestFee * size, fee * bestSize;
      } else {
        crossA, crossB := fee * bestSize, bestFee * size;
      }
      CrossOfView(bestFee, bestSize, fee, size, downward, crossA, crossB);
      if crossA > crossB {
        ScanPassed(v, t, chunk, seen, best, ViewRate(bestFee, bestSize, downward), reached);
        return;
      }
      var tiebreak := Rand64();
      if crossA < crossB || tiebreak >= bestTiebreak {
        ScanTaken(v, t, chunk, seen, best, ViewRate(bestFee, bestSize, downward), reached);
        bestFee', bestSize', best' := fee, size, Some(reached);
        bestTiebreak' := tiebreak;
      } else {
        ScanPassed(v, t, chunk, seen, best, ViewRate(bestFee, bestSize, downward), reached);
      }
    }

    /** Merges `chunk` once, and names the result, or nothing. */
    method MergeStep(chunk: nat, downward: bool) returns (merged: Option<nat>, ghost y: nat, ghost d: Dep)
      requires Valid() && chunk in chunkIdxs
      modifies this
      ensures Queues() == old(Queues())
      ensures Valid() && cost >= old(cost) && Chunked(View(downward), old(Trees())) && chunk in old(Trees())
      ensures merged.None? ==> Value() == old(Value()) && AtRest(View(downward), old(Trees()), chunk)
      ensures merged.Some? ==>
                && MergeCandidate(View(downward), old(Trees()), chunk, y)
                && merged.value == (if downward then y else chunk)
                && Joined(old(Trees()), if downward then chunk else y, merged.value, d, Trees())
    {
      var other := PickMergeCandidate(chunk, downward);
      merged, y, d := None, chunk, Dep(0, 0);
      if other.Some? {
        y := other.value;
        CandidateNeeds(G(), Value(), chunk, downward, y);
        var r;
        if downward {
          r, d := MergeChunks(chunk, other.value);
        } else {
          r, d := MergeChunks(other.value, chunk);
        }
        merged := Some(r);
      }
    }

    /** The queue holds each queued index once. */
    ghost predicate QueueOk()
      reads `suboptimal, `suboptimalIdxs
    {
      multiset(suboptimal) == multiset(suboptimalIdxs)
    }

    method QueueSuboptimal(chunk: nat)
      requires QueueOk()
      modifies `suboptimal, `suboptimalIdxs
      ensures Value() == old(Value()) && cost == old(cost)
      ensures QueueOk() && suboptimalIdxs == old(suboptimalIdxs) + {chunk}
    {
      if chunk !in suboptimalIdxs {
        suboptimalIdxs := suboptimalIdxs + {chunk};
        suboptimal := suboptimal + [chunk];
      }
    }

    /** Appends `item`, and swaps it with a random entry. */
    static method ShuffledInto<T>(queue: seq<T>, item: T) returns (queue': seq<T>)
      ensures multiset(queue') == multiset(queue) + multiset{item}
      ensures exists j :: 0 <= j <= |queue| && queue' == Swapped(queue + [item], j, |queue|)
    {
      queue' := queue + [item];
      var j := RandRange(|queue'|);
      SwapKeeps(queue', j, |queue'| - 1);
      if j != |queue'| - 1 {
        queue' := queue'[|queue'| - 1 := queue'[j]][j := queue'[|queue'| - 1]];
      }
      assert queue' == Swapped(queue + [item], j, |queue|);
    }

    /** Queues every chunk, in a random order. */
    method QueueAll()
      requires suboptimal == []
      modifies `suboptimal, `suboptimalIdxs
      ensures Value() == old(Value()) && cost == old(cost)
      ensures QueueOk() && suboptimalIdxs == chunkIdxs
    {
      suboptimalIdxs := chunkIdxs;
      var todo := chunkIdxs;
      assert chunkIdxs - todo == {};
      while todo != {}
        modifies `suboptimal
        invariant todo <= chunkIdxs && multiset(suboptimal) == multiset(chunkIdxs - todo)
      {
        var chunk := Lowest(todo);
        assert chunkIdxs - (todo - {chunk}) == (chunkIdxs - todo) + {chunk};
        todo := todo - {chunk};
        suboptimal := ShuffledInto(suboptimal, chunk);
      }
      assert chunkIdxs - todo == chunkIdxs;
    }

    /** Takes the first entry off the queue. */
    method PopSuboptimal() returns (chunk: nat)
      requires QueueOk() && suboptimal != []
      modifies `suboptimal, `suboptimalIdxs
      ensures Value() == old(Value()) && cost == old(cost)
      ensures QueueOk() && chunk in old(suboptimalIdxs) && suboptimalIdxs == old(suboptimalIdxs) - {chunk}
      ensures |suboptimal| < old(|suboptimal|)
    {
      chunk := suboptimal[0];
      PopKeeps(suboptimal, suboptimalIdxs);
      suboptimal := suboptimal[1..];
      suboptimalIdxs := suboptimalIdxs - {chunk};
    }

    /** The next live chunk in the queue, or none. */
    method PickChunkToOptimize() returns (chunk: Option<nat>)
      requires QueueOk()
      modifies `suboptimal, `suboptimalIdxs, `cost
      ensures Value() == old(Value()) && cost > old(cost) && QueueOk()
      ensures chunk.Some? ==> chunk.value in chunkIdxs
      ensures forall i :: i in chunkIdxs && i in old(suboptimalIdxs) ==> i in suboptimalIdxs || chunk == Some(i)
      ensures chunk.None? ==> suboptimal == [] && suboptimalIdxs == {}
    {
      var steps := 0;
      ghost var s, q, c := Value(), suboptimalIdxs, cost;
      while suboptimal != []
        invariant Value() == s && QueueOk() && steps >= 0 && cost == c
        invariant forall i :: i in chunkIdxs && i in q ==> i in suboptimalIdxs
        decreases |suboptimal|
      {
        steps := steps + 1;
        var k := PopSuboptimal();
        if k in chunkIdxs {
          cost := cost + steps + 4;
          return Some(k);
        }
      }
      EmptyQueue(suboptimal, suboptimalIdxs);
      cost := cost + steps + 4;
      chunk := None;
    }

    /** One turn of a run of merges. Where the run starts right, so does the
        rest of it. */
    method RunTurn(cur: nat, downward: bool, ghost right: bool, ghost t0: Forest, ghost S0: set<nat>, ghost m0: nat,
                   ghost S: set<nat>, ghost rho: FeeFrac, ghost floor: FeeFrac)
      returns (next: Option<nat>, ghost S': set<nat>, ghost rho': FeeFrac)
      requires Valid() && cur in chunkIdxs
      requires right ==> Running(View(downward), t0, S0, m0, Trees(), S, cur, rho, floor)
      modifies this
      ensures Queues() == old(Queues())
      ensures Valid() && cost >= old(cost)
      ensures next.None? ==> Value() == old(Value()) && Chunked(View(downward), Trees()) && cur in Trees()
      ensures next.None? ==> AtRest(View(downward), Trees(), cur) && S' == S && rho' == rho
      ensures next.Some? ==>
                && next.value in chunkIdxs && (!downward ==> next.value == cur) && |Trees()| < |old(Trees())|
                && (right ==> Running(View(downward), t0, S0, m0, Trees(), S', next.value, rho', floor))
    {
      ghost var t := Trees();
      ghost var y, d;
      next, y, d := MergeStep(cur, downward);
      S', rho' := S, rho;
      if next.Some? {
        FewerChunks(t, if downward then cur else y, next.value, d, Trees());
        if right {
          RunStep(View(downward), t0, S0, m0, t, S, cur, rho, floor, y, d, Trees(), next.value);
          S', rho' := After(S, cur, y, next.value), RateOf(View(downward), t, y);
        }
        assert next.value in Trees();
      }
    }

    /** A run of merges, for as long as there is something to merge with. */
    method MergeRun(chunk: nat, downward: bool, ghost right: bool, ghost S: set<nat>, ghost rho: FeeFrac,
                    ghost floor: FeeFrac)
      returns (m: nat, ghost S': set<nat>, ghost rho': FeeFrac)
      requires Valid() && chunk in chunkIdxs
      requires right ==> Climbing(View(downward), Trees(), S, chunk, rho, floor)
      modifies this
      ensures Queues() == old(Queues())
      ensures Valid() && cost >= old(cost) && Chunked(View(downward), Trees()) && m in Trees()
      ensures right ==> Running(View(downward), old(Trees()), S, chunk, Trees(), S', m, rho', floor)
      ensures AtRest(View(downward), Trees(), m) && (!downward ==> m == chunk)
    {
      ghost var v, t0 := View(downward), Trees();
      if right {
        RunStart(v, t0, S, chunk, rho, floor);
      }
      S', rho', m := S, rho, chunk;
      while true
        invariant Queues() == old(Queues())
        invariant Valid() && m in chunkIdxs && cost >= old(cost)
        invariant right ==> Running(v, t0, S, chunk, Trees(), S', m, rho', floor)
        invariant !downward ==> m == chunk
        decreases |Trees()|
      {
        var next;
        next, S', rho' := RunTurn(m, downward, right, t0, S, chunk, S', rho', floor);
        if next.None? {
          return;
        }
        m := next.value;
      }
    }

    /** Merges `chunk` while it can be, then queues it for improvement. The
        ghosts say what the run of merges keeps. */
    method MergeSequence(chunk: nat, downward: bool, ghost S: set<nat>, ghost rho: FeeFrac, ghost floor: FeeFrac)
      returns (ghost m: nat, ghost S': set<nat>, ghost rho': FeeFrac)
      requires Valid() && QueueOk() && chunk in chunkIdxs
      requires Climbing(View(downward), Trees(), S, chunk, rho, floor)
      modifies this
      ensures Valid() && QueueOk() && cost >= old(cost)
      ensures Running(View(downward), old(Trees()), S, chunk, Trees(), S', m, rho', floor)
      ensures AtRest(View(downward), Trees(), m) && (!downward ==> m == chunk)
      ensures suboptimalIdxs == old(suboptimalIdxs) + {m}
    {
      var merged;
      merged, S', rho' := MergeRun(chunk, downward, true, S, rho, floor);
      m := merged;
      QueueSuboptimal(merged);
    }

    /** The sign of the difference of the feerates in two slots. */
    function Compare(a: nat, b: nat): int
      requires a < |setTx| && b < |setTx| && |setFee| == |setTx| && |setSize| == |setTx|
      reads this
      ensures Compare(a, b) > 0 <==> SlotBeats(Value(), a, b)
      ensures Compare(a, b) < 0 <==> SlotBeats(Value(), b, a)
    {
      var crossA, crossB := setFee[a] * setSize[b], setFee[b] * setSize[a];
      (if crossA > crossB then 1 else 0) - (if crossA < crossB then 1 else 0)
    }

    /** A random active dependency whose top beats `chunk`, or none. */
    method PickDependencyToSplit(chunk: nat) returns (candidate: Option<Dep>)
      requires Valid() && chunk in chunkIdxs
      modifies `cost
      ensures Value() == old(Value()) && cost >= old(cost)
      ensures SplitFound(G(), Value(), chunk, candidate)
    {
      TreeIn(G(), Value(), chunk);
      ghost var seen;
      candidate, seen := ScanSplits(chunk);
      SplitIsFound(G(), Value(), chunk, seen, candidate);
      cost := cost + 8 * |setTx[chunk]| + 9;
    }

    method ScanSplits(chunk: nat) returns (candidate: Option<Dep>, ghost seen: set<Dep>)
      requires Shaped(G(), Value()) && ActiveListed(G(), Value()) && chunk < |setTx| && setTx[chunk] <= transactions
      ensures SplitScanned(Value(), chunk, seen, candidate)
      ensures forall d :: d in depTop && d.parent in setTx[chunk] ==> d in seen
    {
      candidate, seen := None, {};
      var candidateTiebreak := 0;
      var todo := setTx[chunk];
      while todo != {}
        invariant todo <= setTx[chunk] && SplitScanned(Value(), chunk, seen, candidate)
        invariant candidate.None? ==> candidateTiebreak == 0
        invariant forall d :: d in depTop && d.parent in setTx[chunk] - todo ==> d in seen
      {
        var tx := Lowest(todo);
        var kids := activeChildren[tx];
        while kids != {}
          invariant kids <= activeChildren[tx] && SplitScanned(Value(), chunk, seen, candidate)
          invariant candidate.None? ==> candidateTiebreak == 0
          invariant forall d :: d in depTop && d.parent in setTx[chunk] - todo ==> d in seen
          invariant forall c :: c in activeChildren[tx] - kids ==> Dep(tx, c) in seen
        {
          var child := Lowest(kids);
          kids := kids - {child};
          seen := seen + {Dep(tx, child)};
          if Compare(depTop[Dep(tx, child)], chunk) > 0 {
            var tiebreak := Rand64();
            if tiebreak >= candidateTiebreak {
              candidate, candidateTiebreak := Some(Dep(tx, child)), tiebreak;
            }
          }
        }
        assert forall d :: d in depTop && d.parent == tx ==> d == Dep(tx, d.child) && d.child in activeChildren[tx];
        todo := todo - {tx};
      }
    }

    /** Splits the chunk `k` at a dependency whose top beats it, then merges
        until it is topological again. */
    method Improve(parent: nat, child: nat, ghost k: nat)
      requires Valid() && QueueOk() && Chunked(G(), Trees()) && Topological(G(), Trees())
      requires Active(G(), Value(), Dep(parent, child)) && k == chunkIdx[parent] && k in Trees()
      requires setTx[depTop[Dep(parent, child)]] <= transactions
      requires Below(RateOf(G(), Trees(), k), Rate(G(), setTx[depTop[Dep(parent, child)]]))
      modifies this
      ensures Valid() && QueueOk() && cost > old(cost) && Chunked(G(), Trees()) && Topological(G(), Trees())
      ensures NoWorse(G(), Trees(), old(Trees()))
      ensures OthersKept(old(Trees()), k, Trees(), suboptimalIdxs) && old(suboptimalIdxs) <= suboptimalIdxs
    {
      ghost var t0, d := Trees(), Dep(parent, child);
      var top, bottom := Deactivate(parent, child);
      ghost var t1 := Trees();
      PartedRates(G(), t0, k, d, top, t1);
      ReachOfCut(G(), Value(), top, bottom);
      if reachUp[top] * setTx[bottom] != {} {
        var merged;
        ghost var e;
        merged, e := MergeChunks(bottom, top);
        ValidIsChunked(G(), Trees());
        ImprovedNothing(G(), t0, k, d, top, t1, e, Trees());
        QueueSuboptimal(merged);
      } else {
        Remerge(top, bottom, t0, d);
      }
    }

    /** Merges both parts of a cut with their neighbours. */
    method Remerge(top: nat, bottom: nat, ghost t0: Forest, ghost d: Dep)
      requires Valid() && QueueOk() && ValidForest(G(), t0) && Chunked(G(), t0)
      requires Parted(t0, bottom, d, top, Trees()) && TopAboveBottom(G(), t0, bottom, Trees(), top)
      modifies this
      ensures Valid() && QueueOk() && cost >= old(cost) && Chunked(G(), Trees()) && Topological(G(), Trees())
      ensures NoWorse(G(), Trees(), t0)
      ensures OthersKept(t0, bottom, Trees(), suboptimalIdxs) && old(suboptimalIdxs) <= suboptimalIdxs
    {
      ghost var t1, c := Trees(), RateOf(G(), t0, bottom);
      TopClimbs(G(), t0, bottom, t1, top);
      ghost var m2, S2, rho2 := MergeSequence(top, false, t1.Keys - {bottom}, c, c);
      ghost var t2 := Trees();
      BottomSinks(G(), t0, bottom, t1, top, t2, S2, rho2);
      ghost var m3, S3, rho3 := MergeSequence(bottom, true, t2.Keys, c.Neg(), c.Neg());
      ValidIsChunked(G(), Trees());
      ImprovedAll(G(), t0, bottom, d, top, t1, t2, S2, rho2, Trees(), S3, m3, rho3);
    }

    /** Merges the chunk of `tx` upward. Where the chunks in `S` hold the
        transactions of an order, they then hold one more. */
    method LoadOne(tx: nat, ghost right: bool, ghost S: set<nat>, ghost order: seq<nat>) returns (ghost S': set<nat>)
      requires Valid() && tx in transactions
      requires right ==> LoadedSoFar(G(), Trees(), S, order)
      requires right ==> Distinct(order + [tx]) && ParentsFirst(G(), order + [tx])
      modifies this
      ensures Queues() == old(Queues())
      ensures Valid() && cost >= old(cost)
      ensures right ==> LoadedSoFar(G(), Trees(), S', order + [tx])
    {
      ghost var s, t, k := Value(), Trees(), chunkIdx[tx];
      TreeIn(G(), s, k);
      if right {
        NextClimbs(G(), t, S, order, tx, k);
      }
      ghost var m, rho;
      m, S', rho := MergeRun(chunkIdx[tx], false, right, S + {k}, BOTTOM, BOTTOM);
      if right {
        assert TxsOf(Trees(), S') == TxsOf(t, S) + t[k].txs by {
          AllListed(G(), s);
          AllListed(G(), Value());
          NextTxs(G(), t, S, k, Trees(), S', m);
        }
        RunLoaded(G(), t, S, order, tx, k, Trees(), S', m, rho);
      }
    }

    /** Merges upward along `linearization`, right after construction. Where it
        is an order, parents first, the chunks end up topological, and gain at
        least what every prefix of it is worth. */
    method LoadLinearization(linearization: seq<nat>)
      requires Valid() && Singles(Trees(), {}) && forall x :: x in linearization ==> x in transactions
      modifies this
      ensures Queues() == old(Queues())
      ensures Valid() && cost >= old(cost)
      ensures IsOrder(G(), linearization) ==>
                && Chunked(G(), Trees()) && Topological(G(), Trees())
                && C.Priced(fees, sizes, linearization) && Loaded(G(), Trees(), Trees().Keys, linearization)
    {
      ghost var right, S: set<nat> := IsOrder(G(), linearization), {};
      ghost var g := G();
      NothingLoaded(g, Trees());
      for i := 0 to |linearization|
        invariant Queues() == old(Queues())
        invariant Valid() && cost >= old(cost)
        invariant right ==> LoadedSoFar(g, Trees(), S, linearization[..i])
      {
        NextPrefix(linearization, i);
        if right {
          OrderSoFar(g, linearization, i);
        }
        S := LoadOne(linearization[i], right, S, linearization[..i]);
      }
      if right {
        AllLoaded(g, Trees(), S, linearization);
      }
    }

    /** Merges `chunk` once, upward or downward, where that is to be tried. */
    method MergeEither(chunk: nat, upward: bool, downward: bool) returns (merged: Option<nat>, ghost z: nat)
      requires Valid() && chunk in chunkIdxs
      modifies this
      ensures Queues() == old(Queues())
      ensures Valid() && cost >= old(cost) && Chunked(G(), old(Trees())) && chunk in old(Trees())
      ensures merged.None? ==> Value() == old(Value()) && TriedInVain(G(), old(Trees()), chunk, upward, downward)
      ensures merged.Some? ==> Merged(G(), old(Trees()), chunk, z, Trees(), merged.value) && |Trees()| < |old(Trees())|
      ensures Topological(G(), old(Trees())) ==> merged.None?
    {
      ghost var t := Trees();
      ValidIsChunked(G(), t);
      merged, z := None, chunk;
      var flipped := RandBool();
      var flip := if flipped then 1 else 0;
      var triedUp, triedDown := false, false;
      for i := 0 to 2
        invariant Queues() == old(Queues()) && Value() == old(Value()) && cost >= old(cost)
        invariant merged.None? && TriedInVain(G(), t, chunk, triedUp, triedDown)
        invariant i > 0 ==> (if flip == 0 then downward ==> triedDown else upward ==> triedUp)
        invariant i > 1 ==> (if flip == 0 then upward ==> triedUp else downward ==> triedDown)
      {
        var down := i == flip;
        merged, z := MergeOneWay(chunk, down, if down then downward else upward);
        if merged.Some? {
          return;
        }
        triedUp, triedDown := triedUp || (!down && upward), triedDown || (down && downward);
      }
    }

    /** Merges a chunk in one direction, if that is wanted and it can be. */
    method MergeOneWay(chunk: nat, down: bool, wanted: bool) returns (merged: Option<nat>, ghost z: nat)
      requires Valid() && chunk in chunkIdxs
      modifies this
      ensures Queues() == old(Queues())
      ensures Valid() && cost >= old(cost) && Chunked(G(), old(Trees())) && chunk in old(Trees())
      ensures merged.None? ==>
                Value() == old(Value()) && TriedInVain(G(), old(Trees()), chunk, !down && wanted, down && wanted)
      ensures merged.Some? ==> Merged(G(), old(Trees()), chunk, z, Trees(), merged.value) && |Trees()| < |old(Trees())|
      ensures Topological(G(), old(Trees())) ==> merged.None?
    {
      ghost var t, d := Trees(), Dep(0, 0);
      ValidIsChunked(G(), t);
      merged, z := None, chunk;
      if wanted {
        merged, z, d := MergeStep(chunk, down);
        if merged.Some? {
          EitherMerged(G(), t, chunk, down, z, merged.value, d, Trees());
        }
      }
    }

    /** Takes a chunk off the queue, and merges it once if it can be. */
    method UntangleNext(initDown: bool, mergedChunks: set<nat>) returns (mergedChunks': set<nat>)
      requires Valid() && QueueOk() && suboptimal != []
      requires Chunked(G(), Trees()) && Watched(G(), Trees(), initDown, suboptimalIdxs, mergedChunks)
      modifies this
      ensures Valid() && QueueOk() && cost >= old(cost)
      ensures Chunked(G(), Trees()) && Watched(G(), Trees(), initDown, suboptimalIdxs, mergedChunks')
      ensures |Trees()| < |old(Trees())| || (|Trees()| == |old(Trees())| && |suboptimal| < |old(suboptimal)|)
      ensures Topological(G(), old(Trees())) ==> Value() == old(Value())
    {
      ghost var s, t, queued := Value(), Trees(), suboptimalIdxs;
      mergedChunks' := mergedChunks;
      var chunk := PopSuboptimal();
      assert Value() == s;
      if chunk !in chunkIdxs {
        WatchedWithoutGone(G(), t, initDown, queued, mergedChunks, chunk);
        return;
      }
      var both := chunk in mergedChunks;
      var merged;
      ghost var z;
      merged, z := MergeEither(chunk, both || !initDown, both || initDown);
      if merged.Some? {
        WatchedAfterMerge(G(), t, initDown, queued, mergedChunks, chunk, z, Trees(), merged.value);
        QueueSuboptimal(merged.value);
        mergedChunks' := mergedChunks + {merged.value};
      } else {
        WatchedAfterVain(G(), t, initDown, queued, mergedChunks, chunk);
      }
    }

    /** Merges the queued chunks until none is queued. */
    method Untangle(initDown: bool) returns (steps: nat)
      requires Valid() && QueueOk()
      requires Chunked(G(), Trees()) && Watched(G(), Trees(), initDown, suboptimalIdxs, {})
      modifies this
      ensures Valid() && suboptimal == [] && suboptimalIdxs == {} && cost >= old(cost)
      ensures Chunked(G(), Trees()) && Topological(G(), Trees())
      ensures Topological(G(), old(Trees())) ==> Value() == old(Value())
    {
      ghost var s := Value();
      var mergedChunks: set<nat> := {};
      steps := 0;
      while suboptimal != []
        invariant Valid() && QueueOk() && cost >= old(cost)
        invariant Chunked(G(), Trees()) && Watched(G(), Trees(), initDown, suboptimalIdxs, mergedChunks)
        invariant Topological(G(), old(Trees())) ==> Value() == s
        decreases |Trees()|, |suboptimal|
      {
        steps := steps + 1;
        mergedChunks := UntangleNext(initDown, mergedChunks);
      }
      EmptyQueue(suboptimal, suboptimalIdxs);
      WatchedToTheEnd(G(), Trees(), initDown, mergedChunks);
    }

    /** Merges chunks until none depends on one that it beats or ties. Where
        none does, nothing is changed. */
    method MakeTopological()
      requires Valid() && suboptimal == []
      modifies this
      ensures Valid() && suboptimal == [] && suboptimalIdxs == {} && cost >= old(cost)
      ensures Chunked(G(), old(Trees())) && Chunked(G(), Trees()) && Topological(G(), Trees())
      ensures Topological(G(), old(Trees())) ==> Value() == old(Value())
    {
      var initDown := RandBool();
      QueueAll();
      ValidIsChunked(G(), Trees());
      AllWatched(G(), Trees(), initDown, {});
      var chunks := |chunkIdxs|;
      var steps := Untangle(initDown);
      Spend(20 * chunks + 28 * steps);
    }

    /** Every live chunk that is not queued has no top set that beats it. */
    ghost predicate QueuedOrUnbeaten()
      requires Valid()
      reads this
    {
      forall k :: k in Trees() && k !in suboptimalIdxs ==> Unbeaten(G(), Trees(), k)
    }

    method StartOptimizing()
      requires Valid() && suboptimal == []
      modifies `suboptimal, `suboptimalIdxs, `cost
      ensures Value() == old(Value()) && Valid() && QueueOk() && QueuedOrUnbeaten() && cost >= old(cost)
    {
      QueueAll();
      cost := cost + 13 * |suboptimal|;
    }

    /** Improves one chunk, and tells whether more may be improved. */
    method OptimizeStep() returns (more: bool)
      requires Valid() && QueueOk() && QueuedOrUnbeaten() && Chunked(G(), Trees()) && Topological(G(), Trees())
      modifies this
      ensures Valid() && QueueOk() && QueuedOrUnbeaten() && Chunked(G(), Trees()) && Topological(G(), Trees())
      ensures NoWorse(G(), Trees(), old(Trees())) && cost > old(cost)
      ensures !more ==> Optimal(G(), Trees())
    {
      ghost var s, t := Value(), Trees();
      var chunk := PickChunkToOptimize();
      assert Value() == s;
      if chunk.None? {
        return false;
      }
      var dependency := PickDependencyToSplit(chunk.value);
      assert Value() == s;
      if dependency.None? {
        EmptyQueueIf(suboptimal, suboptimalIdxs);
        return suboptimal != [];
      }
      ghost var queued := suboptimalIdxs;
      Improve(dependency.value.parent, dependency.value.child, chunk.value);
      KeptUnbeaten(G(), t, queued, chunk.value, Trees(), suboptimalIdxs);
      return true;
    }

    /** A random transaction of `txs`. */
    static method PickRandomTx(txs: set<nat>) returns (tx: nat)
      requires txs != {}
      ensures tx in txs
    {
      var pos := RandRange(|txs|);
      tx := PickTx(txs, pos);
    }

    /** Queues every chunk, with a random pivot, to be split if it can. */
    method StartMinimizing()
      requires Valid()
      modifies `nonminimal, `cost
      ensures Value() == old(Value()) && cost >= old(cost)
      ensures PendingIn(Trees(), nonminimal) && Pended(nonminimal) == chunkIdxs
      ensures FirstTries(nonminimal)
    {
      var queue := [];
      var todo := chunkIdxs;
      ghost var t := Trees();
      SeenAll(chunkIdxs);
      while todo != {}
        modifies {}
        invariant todo <= chunkIdxs && FirstQueue(t, queue, chunkIdxs - todo)
      {
        var chunk := Lowest(todo);
        SeenOneMore(chunkIdxs, todo, chunk);
        queue := WithChunk(queue, chunk, chunkIdxs - todo);
        todo := todo - {chunk};
      }
      SetPending(queue, 18 * |queue|);
    }

    /** `queue` with `chunk` and a random pivot shuffled in. */
    method WithChunk(queue: seq<Pending>, chunk: nat, ghost chunks: set<nat>) returns (queue': seq<Pending>)
      requires Valid() && chunk in chunkIdxs && FirstQueue(Trees(), queue, chunks) && chunk !in chunks
      ensures FirstQueue(Trees(), queue', chunks + {chunk})
    {
      TreeIn(G(), Value(), chunk);
      var pivot := PickRandomTx(setTx[chunk]);
      var moveDown := RandBool();
      queue' := ShuffledInto(queue, Pending(chunk, pivot, moveDown, false));
      ShuffleTries(queue, Pending(chunk, pivot, moveDown, false), queue');
      ShufflePending(Trees(), queue, Pending(chunk, pivot, moveDown, false), queue');
    }

    /** What every step of the minimization keeps. */
    ghost predicate Settling()
      reads this
    {
      Valid() && Steady(G(), Trees()) && PendingIn(Trees(), nonminimal)
    }

    /** Every chunk that is neither queued nor in `besides` is minimal. */
    ghost predicate Minimized(besides: set<nat>)
      requires Settling()
      reads this
    {
      MinimalBesides(G(), Trees(), nonminimal, besides)
    }

    method Settle(queue: seq<Pending>, work: nat)
      requires Valid() && Steady(G(), Trees()) && PendingIn(Trees(), queue)
      modifies `nonminimal, `cost
      ensures Settling() && Value() == old(Value()) && nonminimal == queue && cost == old(cost) + work
    {
      SetPending(queue, work);
    }

    /** Tries to split one chunk, and tells whether any chunk may still split. */
    method MinimizeStep() returns (more: bool)
      requires Settling() && Minimized({})
      modifies this
      ensures Settling() && Minimized({}) && SameGain(G(), Trees(), old(Trees()))
      ensures if more then cost > old(cost) else Value() == old(Value()) && nonminimal == []
    {
      if nonminimal == [] {
        return false;
      }
      var entry := TakeEntry();
      TryEntry(entry);
      return true;
    }

    /** Tries to split the chunk of an entry that was taken off the queue. */
    method TryEntry(entry: Pending)
      requires Settling() && entry.chunk in chunkIdxs && entry.pivot in setTx[entry.chunk]
      requires entry.chunk !in Pended(nonminimal)
      requires Minimized({entry.chunk}) && Tried(G(), Trees(), entry)
      modifies this
      ensures Settling() && Minimized({}) && SameGain(G(), Trees(), old(Trees())) && cost > old(cost)
    {
      var chunk, pivot := entry.chunk, entry.pivot;
      TreeIn(G(), Value(), chunk);
      var haveAny, candidate, candidateTiebreak := ScanEven(chunk, pivot, entry.moveDown);
      ScanTells(G(), Value(), chunk, pivot, entry.moveDown, haveAny, candidate, candidateTiebreak);
      SpendOnScan(chunk);
      if haveAny && candidateTiebreak > 0 {
        SplitPending(entry, candidate);
      } else if haveAny && !entry.secondStage {
        Requeue(Pending(chunk, pivot, !entry.moveDown, true));
      } else {
        if haveAny {
          NeitherSide(G(), setTx[chunk], pivot, entry.moveDown);
        }
        OneMoreMinimal(G(), Trees(), nonminimal, chunk);
      }
    }

    method TakeEntry() returns (entry: Pending)
      requires Settling() && nonminimal != [] && Minimized({})
      modifies `nonminimal, `cost
      ensures Settling() && Value() == old(Value()) && cost == old(cost)
      ensures Minimized({entry.chunk}) && Tried(G(), Trees(), entry)
      ensures entry == old(nonminimal)[0] && nonminimal == old(nonminimal)[1..] && entry.chunk !in Pended(nonminimal)
      ensures entry.chunk in chunkIdxs && entry.pivot in setTx[entry.chunk]
    {
      entry := nonminimal[0];
      TakePending(Trees(), nonminimal);
      TakeTried(G(), Trees(), nonminimal);
      Settle(nonminimal[1..], 0);
    }

    method SpendOnScan(chunk: nat)
      requires Settling() && chunk in chunkIdxs
      modifies `cost
      ensures Settling() && Value() == old(Value()) && nonminimal == old(nonminimal) && cost > old(cost)
    {
      Spend(11 * |setTx[chunk]| + 11);
    }

    method WithEntry(entry: Pending) returns (queue: seq<Pending>)
      requires Settling() && entry.chunk in Trees() && entry.pivot in Trees()[entry.chunk].txs
      requires entry.chunk !in Pended(nonminimal)
      requires Minimized({entry.chunk}) && Tried(G(), Trees(), entry)
      ensures queue == nonminimal + [entry] && PendingIn(Trees(), queue) && MinimalBesides(G(), Trees(), queue, {})
    {
      queue := nonminimal + [entry];
      assert {} + {entry.chunk} == {entry.chunk};
      OneMoreTried(G(), Trees(), nonminimal, entry, {});
      AddPending(Trees(), nonminimal, entry);
    }

    /** Puts back a chunk that is not queued. */
    method Requeue(entry: Pending)
      requires Settling() && entry.chunk in chunkIdxs && entry.pivot in setTx[entry.chunk]
      requires entry.chunk !in Pended(nonminimal)
      requires Minimized({entry.chunk}) && Tried(G(), Trees(), entry)
      modifies `nonminimal, `cost
      ensures Settling() && Minimized({}) && Value() == old(Value()) && cost == old(cost)
      ensures nonminimal == old(nonminimal) + [entry]
    {
      TreeIn(G(), Value(), entry.chunk);
      var queue := WithEntry(entry);
      Settle(queue, 0);
    }

    /** Splits a chunk that was taken off the queue, and queues both parts, or
        the chunk again where its top depends on its bottom. */
    method SplitPending(entry: Pending, d: Dep)
      requires Settling() && entry.chunk in chunkIdxs && entry.pivot in setTx[entry.chunk]
      requires entry.chunk !in Pended(nonminimal) && d in depTop && d.parent in setTx[entry.chunk]
      requires Movable(Value(), entry.chunk, entry.pivot, entry.moveDown, d)
      requires Minimized({entry.chunk}) && Tried(G(), Trees(), entry)
      modifies this
      ensures Settling() && Minimized({}) && SameGain(G(), Trees(), old(Trees())) && cost > old(cost)
    {
      ghost var s, t0 := Value(), Trees();
      EvenIsActive(G(), s, entry.chunk, d);
      var top, bottom := Deactivate(d.parent, d.child);
      ghost var t1 := Trees();
      NotBelowIsEven(G(), t0, bottom, d, top, t1);
      ReachOfCut(G(), Value(), top, bottom);
      if reachUp[top] * setTx[bottom] != {} {
        MergeBack(top, bottom, entry, t0, d);
      } else {
        PivotPart(G(), s, entry.chunk, entry.pivot, entry.moveDown, d, top, t1);
        SplitSteady(G(), t0, bottom, d, top, t1);
        QueueParts(top, bottom, entry, t0, d);
      }
    }

    /** Merges both parts again, the other way. */
    method MergeBack(top: nat, bottom: nat, entry: Pending, ghost t0: Forest, ghost d: Dep)
      requires Valid() && top in chunkIdxs && bottom in chunkIdxs && Needs(G(), setTx[top], setTx[bottom])
      requires Steady(G(), t0) && EvenlyParted(G(), t0, bottom, d, top, Trees())
      requires PendingIn(t0, nonminimal) && entry.chunk == bottom && bottom !in Pended(nonminimal)
      requires entry.pivot in t0[bottom].txs
      requires MinimalBesides(G(), t0, nonminimal, {bottom}) && Tried(G(), t0, entry)
      modifies this
      ensures Settling() && Minimized({}) && SameGain(G(), Trees(), t0) && cost > old(cost)
    {
      ghost var t1, queue := Trees(), nonminimal;
      var merged;
      ghost var e;
      merged, e := MergeChunks(bottom, top);
      BackSettled(G(), t0, bottom, d, top, t1, e, Trees(), queue, entry);
      BackTried(G(), t0, bottom, d, top, t1, e, Trees(), queue, entry);
      Settle(nonminimal + [entry.(chunk := merged)], 7);
    }

    /** Queues both parts of a split chunk, in either order. */
    method QueueParts(top: nat, bottom: nat, entry: Pending, ghost t0: Forest, ghost d: Dep)
      requires Valid() && Steady(G(), Trees()) && top in chunkIdxs && bottom in chunkIdxs
      requires PendingIn(t0, nonminimal) && bottom !in Pended(nonminimal) && top in Trees() && bottom in Trees()
      requires entry.pivot in Trees()[if entry.moveDown then bottom else top].txs
      requires EvenlyParted(G(), t0, bottom, d, top, Trees()) && !DependsOn(G(), Trees(), top, bottom)
      requires MinimalBesides(G(), t0, nonminimal, {bottom}) && Tried(G(), t0, entry) && entry.chunk == bottom
      modifies `nonminimal, `cost
      ensures Settling() && Minimized({}) && Value() == old(Value()) && cost > old(cost)
    {
      TreeIn(G(), Value(), top);
      TreeIn(G(), Value(), bottom);
      var queued := WithParts(nonminimal, top, setTx[top], bottom, setTx[bottom], entry, G(), t0, d, Trees());
      Settle(queued, 24);
    }

    /** `queue` with the entries of both parts. */
    static method WithParts(queue: seq<Pending>, top: nat, topTx: set<nat>, bottom: nat, botTx: set<nat>,
                            entry: Pending, ghost g: Cluster, ghost t0: Forest, ghost d: Dep, ghost t1: Forest)
      returns (queued: seq<Pending>)
      requires Splitting(g, t0, bottom, d, top, t1, queue, entry)
      requires t1[top].txs == topTx != {} && t1[bottom].txs == botTx != {}
      ensures PendingIn(t1, queued) && MinimalBesides(g, t1, queued, {})
    {
      ghost var e, f;
      queued, e, f := WithPartEntries(queue, top, topTx, bottom, botTx, entry);
      PartsQueued(g, t0, bottom, d, top, t1, queue, entry, e, f, queued);
    }

    static method WithPartEntries(queue: seq<Pending>, top: nat, topTx: set<nat>, bottom: nat, botTx: set<nat>,
                                  entry: Pending)
      returns (queued: seq<Pending>, ghost e: Pending, ghost f: Pending)
      requires topTx != {} && botTx != {} && entry.chunk == bottom
      requires entry.pivot in if entry.moveDown then botTx else topTx
      ensures e.chunk == top && f.chunk == bottom && e.pivot in topTx && f.pivot in botTx
      ensures if entry.moveDown then !e.secondStage && f == entry else !f.secondStage && e == entry.(chunk := top)
      ensures var all := queue + [e] + [f]; queued == all || queued == Swapped(all, |queue|, |queue| + 1)
    {
      var topEntry, bottomEntry := PartEntries(top, topTx, bottom, botTx, entry);
      queued := SwapLast(queue + [topEntry] + [bottomEntry]);
      e, f := topEntry, bottomEntry;
    }

    /** The pivot and its flags stay with the part that has the pivot; the other
        part gets new ones. */
    static method PartEntries(top: nat, topTx: set<nat>, bottom: nat, botTx: set<nat>, entry: Pending)
      returns (topEntry: Pending, bottomEntry: Pending)
      requires topTx != {} && botTx != {} && entry.pivot in if entry.moveDown then botTx else topTx
      ensures topEntry.chunk == top && topEntry.pivot in topTx
      ensures bottomEntry.chunk == bottom && bottomEntry.pivot in botTx
      ensures if entry.moveDown then !topEntry.secondStage && bottomEntry == entry.(chunk := bottom)
              else !bottomEntry.secondStage && topEntry == entry.(chunk := top)
    {
      var moveDown := RandBool();
      topEntry, bottomEntry := entry.(chunk := top), entry.(chunk := bottom);
      if entry.moveDown {
        var topPivot := PickRandomTx(topTx);
        topEntry := Pending(top, topPivot, moveDown, false);
      } else {
        var bottomPivot := PickRandomTx(botTx);
        bottomEntry := Pending(bottom, bottomPivot, moveDown, false);
      }
    }

    /** Swaps the last two entries, or does not. */
    static method SwapLast<T>(queue: seq<T>) returns (queue': seq<T>)
      requires |queue| >= 2
      ensures queue' == queue || queue' == Swapped(queue, |queue| - 2, |queue| - 1)
    {
      queue' := queue;
      var n := |queue|;
      var swap := RandBool();
      if swap {
        queue' := queue[n - 1 := queue[n - 2]][n - 2 := queue[n - 1]];
      }
    }

    /** How many parents each transaction has, and how many there are outside
        of each chunk of the transactions in it. */
    method CountParents() returns (txDeps: seq<int>, chunkDeps: seq<int>)
      requires Shaped(G(), Value()) && SetsSummed(G(), Value()) && ChunksListed(G(), Value())
      ensures |txDeps| == |fees| && |chunkDeps| == |setTx|
      ensures forall x :: x in transactions ==> txDeps[x] == |parents[x]|
      ensures forall k :: k in chunkIdxs ==> setTx[k] <= transactions && chunkDeps[k] == |LeftOf(G(), setTx[k], {})|
    {
      txDeps, chunkDeps := seq(|fees|, _ => 0), seq(|setTx|, _ => 0);
      var todo := transactions;
      ghost var seen: set<nat> := {};
      NothingCounted(G(), Value());
      while todo != {}
        invariant todo <= transactions && seen == transactions - todo
        invariant TxsCounted(parents, seen, txDeps)
        invariant CountedIn(G(), Value(), seen, chunkDeps)
      {
        var tx := Lowest(todo);
        SeenOneMore(transactions, todo, tx);
        TxCountedMore(parents, seen, txDeps, tx);
        txDeps := txDeps[tx := |parents[tx]|];
        chunkDeps := CountParentsOf(tx, chunkDeps, seen);
        todo := todo - {tx};
        seen := seen + {tx};
      }
      SeenAll(transactions);
      AllCounted(G(), Value(), chunkDeps);
    }

    method CountParentsOf(tx: nat, chunkDeps: seq<int>, ghost seen: set<nat>) returns (chunkDeps': seq<int>)
      requires Shaped(G(), Value()) && SetsSummed(G(), Value()) && ChunksListed(G(), Value())
      requires tx in transactions && tx !in seen && CountedIn(G(), Value(), seen, chunkDeps)
      ensures CountedIn(G(), Value(), seen + {tx}, chunkDeps')
    {
      CountOneMore(G(), Value(), seen, chunkDeps, tx);
      var chunk := chunkIdx[tx];
      chunkDeps' := chunkDeps[chunk := chunkDeps[chunk] + |parents[tx] - setTx[chunk]|];
    }

    /** One more dependency is gone. */
    method EmitEdge(tx: nat, chunk: nat, child: nat, n: Counts, ghost gone: set<Dep>, ghost done: set<nat>,
                    ghost out: set<nat>)
      returns (n': Counts)
      requires Valid() && chunk in chunkIdxs && tx in setTx[chunk] && tx in transactions
      requires child in children[tx] && Dep(tx, child) !in gone && setTx[chunk] <= transactions
      requires Emitting(G(), Value(), gone, done, out, setTx[chunk], n)
      ensures Emitting(G(), Value(), gone + {Dep(tx, child)}, done, out, setTx[chunk], n')
    {
      CountedAfter(G(), Value(), gone, n.txDeps, n.chunkDeps, tx, child);
      var txDeps, chunkDeps, readyTx, readyChunks := n.txDeps, n.chunkDeps, n.readyTx, n.readyChunks;
      txDeps := txDeps[child := txDeps[child] - 1];
      if txDeps[child] == 0 && child in setTx[chunk] {
        readyTx := readyTx + {child};
      }
      var childChunk := chunkIdx[child];
      if childChunk != chunk {
        chunkDeps := chunkDeps[childChunk := chunkDeps[childChunk] - 1];
        if chunkDeps[childChunk] == 0 {
          readyChunks := readyChunks + {childChunk};
        }
      }
      n' := Counts(txDeps, chunkDeps, readyTx, readyChunks);
      EmittingAfter(G(), Value(), gone, done, out, setTx[chunk], n, tx, child, n');
    }

    /** All dependencies on `tx` are gone. */
    method EmitTx(tx: nat, chunk: nat, n: Counts, ghost done: set<nat>, ghost out: set<nat>) returns (n': Counts)
      requires Valid() && chunk in chunkIdxs && tx in setTx[chunk] && setTx[chunk] <= transactions
      requires done <= transactions && tx !in done
      requires Emitting(G(), Value(), EdgesFrom(G(), done), done + {tx}, out, setTx[chunk], n)
      ensures Emitting(G(), Value(), EdgesFrom(G(), done + {tx}), done + {tx}, out, setTx[chunk], n')
    {
      n' := n;
      var todo := children[tx];
      ghost var gone, done' := EdgesFrom(G(), done), done + {tx};
      EdgesFromMore(G(), done, tx);
      EdgesToNone(gone, tx, children[tx]);
      while todo != {}
        invariant todo <= children[tx] && gone == EdgesFrom(G(), done) + EdgesTo(tx, children[tx] - todo)
        invariant Emitting(G(), Value(), gone, done', out, setTx[chunk], n')
      {
        var child := Lowest(todo);
        EdgesToMore(EdgesFrom(G(), done), tx, children[tx], todo, child);
        n' := EmitEdge(tx, chunk, child, n', gone, done', out);
        gone := gone + {Dep(tx, child)};
        todo := todo - {child};
      }
    }

    /** The transactions of a chunk that is ready, in order. */
    method EmitChunk(chunk: nat, key: nat -> int, n: Counts, ghost done: set<nat>, ghost out: set<nat>)
      returns (seg: seq<nat>, n': Counts)
      requires Valid() && AcyclicTxs(G()) && chunk in chunkIdxs && setTx[chunk] <= transactions && done <= transactions
      requires setTx[chunk] !! done && Up(G(), setTx[chunk]) - setTx[chunk] <= done
      requires Emitting(G(), Value(), EdgesFrom(G(), done), done, out, {}, n)
      ensures EmittedChunk(G(), done, setTx[chunk], seg) && Elements(seg) == setTx[chunk]
      ensures TxsInTurn(G(), key, done, setTx[chunk], seg)
      ensures Emitting(G(), Value(), EdgesFrom(G(), done + setTx[chunk]), done + setTx[chunk], out, {}, n')
    {
      var chunkTx := setTx[chunk];
      n' := n.(readyTx := set x | x in chunkTx && n.txDeps[x] == 0);
      EmittingOpen(G(), Value(), EdgesFrom(G(), done), done, out, n, chunkTx, n'.readyTx);
      seg := [];
      ghost var now := done;
      while n'.readyTx != {}
        invariant EmittedChunk(G(), done, chunkTx, seg) && now == done + Elements(seg) && now <= transactions
        invariant Emitting(G(), Value(), EdgesFrom(G(), now), now, out, chunkTx, n')
        invariant TxsInTurn(G(), key, done, chunkTx, seg)
        decreases |chunkTx - Elements(seg)|
      {
        var tx;
        tx, n' := NextTx(chunk, key, n', now, out);
        EmittedOneMore(G(), done, chunkTx, seg, tx);
        OutOneMore(done, Elements(seg), chunkTx, tx);
        FirstAmong(G(), key, done, chunkTx, Elements(seg), tx);
        TxsInTurnMore(G(), key, done, chunkTx, seg, tx);
        seg := seg + [tx];
        now := now + {tx};
      }
      if !(chunkTx <= now) {
        ghost var x := NextReady(G(), chunkTx, now);
        EmittingReady(G(), Value(), now, out, n', chunkTx, x);
      }
      EmittingClose(G(), Value(), EdgesFrom(G(), now), now, out, n', chunkTx);
      OutWhole(done, Elements(seg), chunkTx);
    }

    /** The first of the transactions that are ready. */
    method NextTx(chunk: nat, key: nat -> int, n: Counts, ghost done: set<nat>, ghost out: set<nat>)
      returns (tx: nat, n': Counts)
      requires Valid() && chunk in chunkIdxs && setTx[chunk] <= transactions && done <= transactions && n.readyTx != {}
      requires Emitting(G(), Value(), EdgesFrom(G(), done), done, out, setTx[chunk], n)
      ensures tx in setTx[chunk] && tx !in done && parents[tx] <= done
      ensures TxFirst(G(), key, done, setTx[chunk], done, tx)
      ensures Emitting(G(), Value(), EdgesFrom(G(), done + {tx}), done + {tx}, out, setTx[chunk], n')
    {
      tx := LeastTx(n.readyTx, key, fees, sizes);
      TakenIsFirst(G(), Value(), key, done, out, n, setTx[chunk], tx);
      EmittingTakeTx(G(), Value(), done, out, n, setTx[chunk], tx);
      n' := n.(readyTx := n.readyTx - {tx});
      n' := EmitTx(tx, chunk, n', done, out);
    }

    static method LeastTx(ready: set<nat>, key: nat -> int, fee: seq<int>, size: seq<int>) returns (tx: nat)
      requires ready != {} && forall x :: x in ready ==> x < |fee| && x < |size| && size[x] > 0
      ensures tx in ready
      ensures forall x :: x in ready && x != tx ==>
                Before(Entry(FeeFrac(fee[tx], size[tx]), key(tx), tx), Entry(FeeFrac(fee[x], size[x]), key(x), x))
    {
      tx := LeastOf(ready, x requires 0 <= x < |fee| && x < |size| => Entry(FeeFrac(fee[x], size[x]), key(x), x));
    }

    /** The chunks in order, each in order, parents first. Chunks go by feerate,
        highest first, then by size, smallest first, then by the lowest greatest
        key; and the transactions of a chunk by the same, their own key last. */
    method GetLinearization(key: nat -> int)
      returns (linearization: seq<nat>, ghost chunks: seq<nat>, ghost segs: seq<seq<nat>>)
      requires Valid() && AcyclicTxs(G())
      requires Chunked(G(), Trees()) && WeaklyTopological(G(), Trees()) && AcyclicChunks(G(), Trees())
      ensures IsOrder(G(), linearization)
      ensures ChunkByChunk(Trees(), chunks, segs) && Elements(chunks) == Trees().Keys
      ensures linearization == D.Flatten(segs) && D.Sorted(ChunkRates(G(), Trees(), chunks))
      ensures InTurn(G(), key, segs)
      ensures C.Priced(fees, sizes, linearization) && forall slope: FeeFrac :: slope.size > 0 ==>
                D.Peak(C.Rates(fees, sizes, linearization), slope) >= GainOver(G(), Trees(), Trees().Keys, slope)
    {
      var n := FirstCounts();
      linearization, chunks, segs := [], [], [];
      NothingEmitted(G(), Trees());
      while n.readyChunks != {}
        invariant Emitted(G(), Trees(), chunks, segs, linearization)
        invariant EmittedState(G(), Value(), chunks, linearization, n)
        invariant ChunksInTurn(G(), Trees(), key, chunks, segs)
        decreases |chunkIdxs - Elements(chunks)|
      {
        ghost var k, seg;
        n, linearization, k, seg := EmitNext(key, n, linearization, chunks, segs);
        MoreOut(chunkIdxs, chunks, k);
        ChunksInTurnMore(G(), Trees(), key, chunks, segs, k, seg);
        chunks, segs := chunks + [k], segs + [seg];
      }
      AllEmitted(G(), Value(), chunks, segs, linearization, n);
      EmittedPeaks(G(), Trees(), chunks, segs);
      ChunksTakeTurns(G(), Trees(), key, chunks, segs);
    }

    method FirstCounts() returns (n: Counts)
      requires Valid()
      ensures EmittedState(G(), Value(), [], [], n)
    {
      var txDeps, chunkDeps := CountParents();
      n := Counts(txDeps, chunkDeps, {}, set k | k in chunkIdxs && chunkDeps[k] == 0);
      EmittingStart(G(), Value(), n);
      assert Elements([]) == {};
    }

    /** The next chunk. */
    method EmitNext(key: nat -> int, n: Counts, order: seq<nat>, ghost chunks: seq<nat>, ghost segs: seq<seq<nat>>)
      returns (n': Counts, order': seq<nat>, ghost k: nat, ghost seg: seq<nat>)
      requires Valid() && AcyclicTxs(G()) && n.readyChunks != {}
      requires Chunked(G(), Trees()) && WeaklyTopological(G(), Trees()) && AcyclicChunks(G(), Trees())
      requires Emitted(G(), Trees(), chunks, segs, order) && EmittedState(G(), Value(), chunks, order, n)
      ensures k in chunkIdxs && k !in Elements(chunks) && order' == order + seg
      ensures Emitted(G(), Trees(), chunks + [k], segs + [seg], order')
      ensures ChunkInTurn(G(), Trees(), key, chunks, segs, k, seg)
      ensures EmittedState(G(), Value(), chunks + [k], order', n')
    {
      var chunk := PickReady(key, n, chunks, segs, order);
      var next;
      next, n' := EmitReady(chunk, key, n, chunks, segs, order);
      order' := order + next;
      k, seg := chunk, next;
      TreeIn(G(), Value(), k);
      EmittedNext(G(), Trees(), chunks, segs, order, k, seg);
      EmittedElements(chunks, k, order, seg);
    }

    /** The first of the chunks that are ready, and none that is left beats it. */
    method PickReady(key: nat -> int, n: Counts, ghost chunks: seq<nat>, ghost segs: seq<seq<nat>>,
                     ghost order: seq<nat>)
      returns (chunk: nat)
      requires Valid() && n.readyChunks != {}
      requires Chunked(G(), Trees()) && WeaklyTopological(G(), Trees()) && AcyclicChunks(G(), Trees())
      requires Emitted(G(), Trees(), chunks, segs, order) && EmittedState(G(), Value(), chunks, order, n)
      ensures chunk in n.readyChunks && chunk in Trees() && chunk !in Elements(chunks)
      ensures forall u :: u in Trees() && u !in Elements(chunks) ==>
                AtMost(RateOf(G(), Trees(), u), RateOf(G(), Trees(), chunk))
      ensures ChunkFirst(G(), Trees(), key, Elements(chunks), Elements(order), chunk)
    {
      ReadyEntries(G(), Value(), chunks, order, n);
      chunk := LeastChunk(n.readyChunks, key, setFee, setSize, setTx);
      PickedIsFirst(G(), Value(), key, chunks, segs, order, n, chunk);
      BestIsBest(G(), Value(), chunks, segs, order, n, chunk);
    }

    static method LeastChunk(ready: set<nat>, key: nat -> int, fee: seq<int>, size: seq<int>, txs: seq<set<nat>>)
      returns (chunk: nat)
      requires ready != {} && |fee| == |size| == |txs|
      requires forall k :: k in ready ==> k < |txs| && txs[k] != {} && size[k] > 0
      ensures chunk in ready
      ensures forall i :: i in ready ==> AtMost(FeeFrac(fee[i], size[i]), FeeFrac(fee[chunk], size[chunk]))
      ensures forall i :: i in ready && i != chunk ==>
                NoLater(Entry(FeeFrac(fee[chunk], size[chunk]), HighestKey(key, txs[chunk]), 0),
                        Entry(FeeFrac(fee[i], size[i]), HighestKey(key, txs[i]), 0))
    {
      var entry := k requires 0 <= k < |fee| && k < |size| && k < |txs| && txs[k] != {} =>
        Entry(FeeFrac(fee[k], size[k]), HighestKey(key, txs[k]), k);
      chunk := LeastOf(ready, entry);
      forall i | i in ready
        ensures AtMost(FeeFrac(fee[i], size[i]), FeeFrac(fee[chunk], size[chunk]))
      {
        BeforeAtMost(entry(chunk), entry(i));
      }
    }

    /** The transactions of a ready chunk. */
    method EmitReady(chunk: nat, key: nat -> int, n: Counts, ghost chunks: seq<nat>, ghost segs: seq<seq<nat>>,
                     ghost order: seq<nat>)
      returns (seg: seq<nat>, n': Counts)
      requires Valid() && AcyclicTxs(G()) && chunk in n.readyChunks && Chunked(G(), Trees())
      requires Emitted(G(), Trees(), chunks, segs, order) && EmittedState(G(), Value(), chunks, order, n)
      ensures chunk in chunkIdxs && setTx[chunk] <= transactions
      ensures EmittedChunk(G(), Elements(order), setTx[chunk], seg) && Elements(seg) == setTx[chunk]
      ensures TxsInTurn(G(), key, Elements(order), setTx[chunk], seg)
      ensures Elements(order) + setTx[chunk] <= transactions
      ensures Emitting(G(), Value(), EdgesFrom(G(), Elements(order) + setTx[chunk]), Elements(order) + setTx[chunk],
                       Elements(chunks) + {chunk}, {}, n')
    {
      ghost var done, out := Elements(order), Elements(chunks);
      ReadyChunk(G(), Value(), chunks, segs, order, n, chunk);
      EmittingTake(G(), Value(), EdgesFrom(G(), done), done, out, n, chunk);
      seg, n' := EmitChunk(chunk, key, n.(readyChunks := n.readyChunks - {chunk}), done, out + {chunk});
    }

    /** The feerates of the chunks, best first, then the smaller size first. */
    method GetDiagram() returns (diagram: seq<FeeFrac>, ghost chunks: seq<nat>)
      requires Valid()
      ensures Chunked(G(), Trees()) && Distinct(chunks) && Elements(chunks) == Trees().Keys
      ensures multiset(diagram) == multiset(ChunkRates(G(), Trees(), chunks)) && BestFirst(diagram)
      ensures D.Positive(diagram) && forall slope: FeeFrac :: slope.size > 0 ==>
                D.Gain(diagram, slope) == D.Peak(diagram, slope) == GainOver(G(), Trees(), Trees().Keys, slope)
    {
      var rates := [];
      var todo := chunkIdxs;
      ValidIsChunked(G(), Trees());
      SeenAll(chunkIdxs);
      chunks := [];
      assert Elements(chunks) == {};
      while todo != {}
        invariant todo <= chunkIdxs && ListsChunks(G(), Trees(), chunks, chunkIdxs - todo, rates)
      {
        var chunk := Lowest(todo);
        SeenOneMore(chunkIdxs, todo, chunk);
        SlotRates(G(), Value(), chunk);
        ListOneMore(G(), Trees(), chunks, chunkIdxs - todo, rates, chunk);
        rates := rates + [FeeFrac(setFee[chunk], setSize[chunk])];
        chunks := chunks + [chunk];
        todo := todo - {chunk};
      }
      SeenAll(chunkIdxs);
      diagram := SortedBestFirst(rates);
      DiagramOfChunks(G(), Trees(), chunks, diagram);
    }

    /** Looks for an active dependency whose top has the feerate of `chunk`, and
        has the pivot where that is to be moved up, or not. */
    method ScanEven(chunk: nat, pivot: nat, moveDown: bool)
      returns (haveAny: bool, candidate: Dep, candidateTiebreak: nat)
      requires Shaped(G(), Value()) && ActiveListed(G(), Value()) && chunk < |setTx| && setTx[chunk] <= transactions
      ensures EvenScanned(Value(), chunk, pivot, moveDown, ActiveIn(Value(), setTx[chunk]), haveAny, candidate,
                          candidateTiebreak)
    {
      haveAny, candidate, candidateTiebreak := false, Dep(0, 0), 0;
      ghost var seen: set<Dep> := {};
      var todo := setTx[chunk];
      while todo != {}
        invariant todo <= setTx[chunk] && seen == ActiveIn(Value(), setTx[chunk] - todo)
        invariant EvenScanned(Value(), chunk, pivot, moveDown, seen, haveAny, candidate, candidateTiebreak)
      {
        var tx := Lowest(todo);
        haveAny, candidate, candidateTiebreak :=
          ScanKids(chunk, pivot, moveDown, tx, seen, haveAny, candidate, candidateTiebreak);
        ActiveInMore(G(), Value(), setTx[chunk] - todo, tx);
        assert setTx[chunk] - (todo - {tx}) == setTx[chunk] - todo + {tx};
        seen := seen + EdgesTo(tx, activeChildren[tx]);
        todo := todo - {tx};
      }
      assert setTx[chunk] - todo == setTx[chunk];
    }

    method ScanKids(chunk: nat, pivot: nat, moveDown: bool, tx: nat, ghost seen: set<Dep>,
                    haveAny: bool, candidate: Dep, candidateTiebreak: nat)
      returns (haveAny': bool, candidate': Dep, candidateTiebreak': nat)
      requires Shaped(G(), Value()) && ActiveListed(G(), Value()) && chunk < |setTx| && setTx[chunk] <= transactions
      requires tx in setTx[chunk]
      requires EvenScanned(Value(), chunk, pivot, moveDown, seen, haveAny, candidate, candidateTiebreak)
      ensures EvenScanned(Value(), chunk, pivot, moveDown, seen + EdgesTo(tx, activeChildren[tx]),
                          haveAny', candidate', candidateTiebreak')
    {
      haveAny', candidate', candidateTiebreak' := haveAny, candidate, candidateTiebreak;
      var kids := activeChildren[tx];
      ghost var now := seen;
      while kids != {}
        invariant kids <= activeChildren[tx] && now == seen + EdgesTo(tx, activeChildren[tx] - kids)
        invariant EvenScanned(Value(), chunk, pivot, moveDown, now, haveAny', candidate', candidateTiebreak')
      {
        var child := Lowest(kids);
        haveAny', candidate', candidateTiebreak' :=
          ConsiderEven(chunk, pivot, moveDown, Dep(tx, child), now, haveAny', candidate', candidateTiebreak');
        assert activeChildren[tx] - (kids - {child}) == (activeChildren[tx] - kids) + {child};
        kids := kids - {child};
        now := now + {Dep(tx, child)};
      }
      assert activeChildren[tx] - kids == activeChildren[tx];
    }

    method ConsiderEven(chunk: nat, pivot: nat, moveDown: bool, d: Dep, ghost seen: set<Dep>,
                        haveAny: bool, candidate: Dep, candidateTiebreak: nat)
      returns (haveAny': bool, candidate': Dep, candidateTiebreak': nat)
      requires Shaped(G(), Value()) && chunk < |setTx| && d in depTop && d.parent in setTx[chunk]
      requires EvenScanned(Value(), chunk, pivot, moveDown, seen, haveAny, candidate, candidateTiebreak)
      ensures EvenScanned(Value(), chunk, pivot, moveDown, seen + {d}, haveAny', candidate', candidateTiebreak')
    {
      haveAny', candidate', candidateTiebreak' := haveAny, candidate, candidateTiebreak;
      var top := depTop[d];
      if Compare(top, chunk) < 0 {
        return;
      }
      haveAny' := true;
      assert TopAtLeast(Value(), chunk, d);
      if moveDown == (pivot in setTx[top]) {
        return;
      }
      var tiebreak := RandOdd64();
      if tiebreak > candidateTiebreak {
        candidateTiebreak' := tiebreak;
        candidate' := d;
      }
    }

    /** A random 64-bit number with its lowest bit set. */
    static method RandOdd64() returns (r: nat)
      ensures r > 0
    {
      r := Rand64();
      r := if r % 2 == 0 then r + 1 else r;
    }

    /** The transaction of `txs` that `pick` others come before. */
    static method PickTx(txs: set<nat>, pick: nat) returns (tx: nat)
      requires pick < |txs|
      ensures tx in txs
    {
      var todo := txs;
      var left: nat := pick;
      while true
        invariant todo <= txs && todo != {} && left < |todo|
        decreases |todo|
      {
        tx := Lowest(todo);
        if left == 0 {
          return;
        }
        left := left - 1;
        todo := todo - {tx};
      }
    }

    method AdjustSlot(ghost s: State, ghost slots: set<nat>, d: nat, mark: nat, part: Slot, add: bool)
      requires |s.setFee| == |s.setTx| && |s.setSize| == |s.setTx|
      requires Adjusted(s, slots, mark, part, add, Value()) && d < |s.setTx| && d !in slots
      modifies `setTx, `setFee, `setSize
      ensures Adjusted(s, slots + {d}, mark, part, add, Value())
    {
      AdjustOne(s, slots, mark, part, add, Value(), d);
      if mark in setTx[d] {
        var c := Changed(Slot(setTx[d], setFee[d], setSize[d]), part, add);
        setTx, setFee, setSize := setTx[d := c.txs], setFee[d := c.fee], setSize[d := c.size];
      }
    }
  }

  lemma EitherMerged(g: Cluster, t: Forest, chunk: nat, down: bool, y: nat, r: nat, d: Dep, t': Forest)
    requires Chunked(g, t) && Joined(t, if down then chunk else y, r, d, t') && r == if down then y else chunk
    requires Chunked(if down then Mirror(g) else g, t) && MergeCandidate(if down then Mirror(g) else g, t, chunk, y)
    ensures Merged(g, t, chunk, y, t', r) && |t'| < |t| && !Topological(g, t)
  {
    if Topological(g, t) {
      NothingToMerge(g, t, chunk, y);
    }
    JoinedIsMerged(g, t, if down then chunk else y, r, d, t');
    FewerChunks(t, if down then chunk else y, r, d, t');
  }

  ghost predicate TxsCounted(parents: seq<set<nat>>, seen: set<nat>, txDeps: seq<int>) {
    |txDeps| == |parents| && Within(seen, |parents|) && forall x :: x in seen ==> txDeps[x] == |parents[x]|
  }

  lemma TxCountedMore(parents: seq<set<nat>>, seen: set<nat>, txDeps: seq<int>, x: nat)
    requires TxsCounted(parents, seen, txDeps) && x < |parents|
    ensures TxsCounted(parents, seen + {x}, txDeps[x := |parents[x]|])
  {
  }

  /** The counts of the chunks' parents, for the transactions in `seen`. */
  ghost predicate CountedIn(g: Cluster, s: State, seen: set<nat>, chunkDeps: seq<int>)
    requires Shaped(g, s) && SetsSummed(g, s)
  {
    && |chunkDeps| == |s.setTx|
    && forall k :: k in s.chunkIdxs ==> chunkDeps[k] == |LeftFrom(g, s.setTx[k] * seen, s.setTx[k], {})|
  }

  lemma NothingCounted(g: Cluster, s: State)
    requires Shaped(g, s) && SetsSummed(g, s)
    ensures g.txs - g.txs == {} && CountedIn(g, s, {}, seq(|s.setTx|, _ => 0))
  {
    forall k | k in s.chunkIdxs
      ensures LeftFrom(g, s.setTx[k] * {}, s.setTx[k], {}) == {}
    {
    }
  }

  lemma CountOneAt(g: Cluster, s: State, seen: set<nat>, x: nat, j: nat)
    requires Shaped(g, s) && SetsSummed(g, s) && ChunksListed(g, s) && x in g.txs && x !in seen && j in s.chunkIdxs
    ensures |LeftFrom(g, s.setTx[j] * (seen + {x}), s.setTx[j], {})|
         == |LeftFrom(g, s.setTx[j] * seen, s.setTx[j], {})|
            + if j == s.chunkIdx[x] then |g.parents[x] - s.setTx[j]| else 0
  {
    if j == s.chunkIdx[x] {
      assert s.setTx[j] * (seen + {x}) == s.setTx[j] * seen + {x};
      LeftFromMore(g, s.setTx[j] * seen, s.setTx[j], x);
    } else {
      assert s.setTx[j] * (seen + {x}) == s.setTx[j] * seen;
    }
  }

  lemma CountOneMore(g: Cluster, s: State, seen: set<nat>, chunkDeps: seq<int>, x: nat)
    requires Shaped(g, s) && SetsSummed(g, s) && ChunksListed(g, s) && CountedIn(g, s, seen, chunkDeps)
    requires x in g.txs && x !in seen
    ensures s.chunkIdx[x] in s.chunkIdxs
    ensures var k := s.chunkIdx[x];
            CountedIn(g, s, seen + {x}, chunkDeps[k := chunkDeps[k] + |g.parents[x] - s.setTx[k]|])
  {
    forall j | j in s.chunkIdxs
      ensures |LeftFrom(g, s.setTx[j] * (seen + {x}), s.setTx[j], {})|
           == |LeftFrom(g, s.setTx[j] * seen, s.setTx[j], {})|
              + if j == s.chunkIdx[x] then |g.parents[x] - s.setTx[j]| else 0
    {
      CountOneAt(g, s, seen, x, j);
    }
  }

  lemma AllCounted(g: Cluster, s: State, chunkDeps: seq<int>)
    requires Shaped(g, s) && SetsSummed(g, s) && CountedIn(g, s, g.txs, chunkDeps)
    ensures forall k :: k in s.chunkIdxs ==> s.setTx[k] <= g.txs && chunkDeps[k] == |LeftOf(g, s.setTx[k], {})|
  {
    forall k | k in s.chunkIdxs
      ensures s.setTx[k] * g.txs == s.setTx[k]
    {
    }
  }

  /** A fee and size as the merge direction sees them. */
  ghost function ViewRate(fee: int, size: int, downward: bool): FeeFrac {
    FeeFrac(if downward then -fee else fee, size)
  }

  lemma CrossOfView(bestFee: int, bestSize: int, fee: int, size: int, downward: bool, crossA: int, crossB: int)
    requires crossA == if downward then bestFee * size else fee * bestSize
    requires crossB == if downward then fee * bestSize else bestFee * size
    ensures var best, r := ViewRate(bestFee, bestSize, downward), ViewRate(fee, size, downward);
            && (crossA > crossB <==> Below(best, r))
            && (crossA >= crossB <==> AtMost(best, r))
            && (crossA <= crossB <==> AtMost(r, best))
  {
  }

  /** What the merge direction sees of a valid state. */
  lemma ViewChunked(g: Cluster, s: State, k: nat, downward: bool)
    requires ValidState(g, s) && k in s.chunkIdxs
    ensures var v, t := if downward then Mirror(g) else g, TreesOf(g, s);
            && Chunked(v, t) && k in t
            && t[k].txs == s.setTx[k]
            && RateOf(v, t, k) == ViewRate(s.setFee[k], s.setSize[k], downward)
            && (if downward then s.reachDown[k] else s.reachUp[k]) == Up(v, t[k].txs) - t[k].txs
  {
    ValidIsChunked(g, TreesOf(g, s));
    MirrorValid(g);
    TreeIn(g, s, k);
    MirrorRate(g, s.setTx[k]);
  }

  lemma ScanStart(g: Cluster, s: State, k: nat, downward: bool)
    requires ValidState(g, s) && k in s.chunkIdxs
    ensures var v, t := if downward then Mirror(g) else g, TreesOf(g, s);
            && Chunked(v, t) && k in t
            && Scanned(v, t, k, {}, None, ViewRate(s.setFee[k], s.setSize[k], downward))
            && (if downward then s.reachDown[k] else s.reachUp[k]) == Unseen(v, t, k, {})
  {
    ViewChunked(g, s, k, downward);
    assert TxsOf(TreesOf(g, s), {}) == {};
  }

  lemma CandidateNeeds(g: Cluster, s: State, k: nat, downward: bool, y: nat)
    requires ValidState(g, s) && k in s.chunkIdxs && k in TreesOf(g, s)
    requires Chunked(if downward then Mirror(g) else g, TreesOf(g, s))
    requires MergeCandidate(if downward then Mirror(g) else g, TreesOf(g, s), k, y)
    ensures y in s.chunkIdxs && y != k && s.setTx[k] <= g.txs && s.setTx[y] <= g.txs
    ensures if downward then Needs(g, s.setTx[y], s.setTx[k]) else Needs(g, s.setTx[k], s.setTx[y])
  {
    TreeIn(g, s, k);
    TreeIn(g, s, y);
    MirrorNeeds(g, s.setTx[k], s.setTx[y]);
  }

  lemma PartedRates(g: Cluster, t0: Forest, k: nat, d: Dep, a: nat, t1: Forest)
    requires ValidForest(g, t0) && ValidForest(g, t1) && Parted(t0, k, d, a, t1)
    ensures Chunked(g, t0) && Chunked(g, t1) && Cut(g, t0, k, t1, a)
    ensures t0[k].tops[d] <= g.txs && RateOf(g, t1, a) == Rate(g, t0[k].tops[d])
  {
    ValidIsChunked(g, t0);
    ValidIsChunked(g, t1);
    PartedIsCut(g, t0, k, d, a, t1);
  }

  /** Whether the top depends on the bottom, as the reach sets say. */
  lemma ReachOfCut(g: Cluster, s: State, top: nat, bottom: nat)
    requires ValidState(g, s) && top in s.chunkIdxs && bottom in s.chunkIdxs && top != bottom
    ensures s.setTx[top] <= g.txs && s.setTx[bottom] <= g.txs
    ensures s.reachUp[top] * s.setTx[bottom] != {} <==> Needs(g, s.setTx[top], s.setTx[bottom])
  {
    TreeIn(g, s, top);
    TreeIn(g, s, bottom);
    ChunksApart(g, s, top, bottom);
    if Needs(g, s.setTx[top], s.setTx[bottom]) {
      var c, p :| c in s.setTx[top] && p in s.setTx[bottom] && p in g.parents[c];
      assert p in s.reachUp[top] * s.setTx[bottom];
    }
    if s.reachUp[top] * s.setTx[bottom] != {} {
      var p :| p in s.reachUp[top] * s.setTx[bottom];
      var c :| c in s.setTx[top] && p in g.parents[c];
    }
  }

  ghost predicate SlotBeats(s: State, a: nat, b: nat)
    requires a < |s.setTx| && b < |s.setTx| && |s.setFee| == |s.setTx| && |s.setSize| == |s.setTx|
  {
    s.setFee[a] * s.setSize[b] > s.setFee[b] * s.setSize[a]
  }

  /** Of the active dependencies in `seen`, `candidate` is one whose top set
      beats the chunk `k`, if there is any. */
  ghost predicate SplitScanned(s: State, k: nat, seen: set<Dep>, candidate: Option<Dep>)
    requires DepsWithin(s) && k < |s.setTx| && |s.setFee| == |s.setTx| && |s.setSize| == |s.setTx|
  {
    match candidate
    case None => forall d :: d in seen && d in s.depTop ==> !SlotBeats(s, s.depTop[d], k)
    case Some(d) => d in s.depTop && d.parent in s.setTx[k] && SlotBeats(s, s.depTop[d], k)
  }

  /** A dependency of the chunk `k` whose top set beats it, or none, and then
      there is none. */
  ghost predicate SplitFound(g: Cluster, s: State, k: nat, candidate: Option<Dep>) {
    && ValidState(g, s) && k in s.chunkIdxs && Chunked(g, TreesOf(g, s)) && k in TreesOf(g, s)
    && match candidate
       case None => Unbeaten(g, TreesOf(g, s), k)
       case Some(d) =>
         && Active(g, s, d) && s.chunkIdx[d.parent] == k && s.setTx[s.depTop[d]] <= g.txs
         && Below(RateOf(g, TreesOf(g, s), k), Rate(g, s.setTx[s.depTop[d]]))
  }

  /** The active dependencies on the transactions of `txs`. */
  ghost function ActiveIn(s: State, txs: set<nat>): set<Dep> {
    set d | d in s.depTop && d.parent in txs
  }

  lemma ActiveInMore(g: Cluster, s: State, txs: set<nat>, tx: nat)
    requires Shaped(g, s) && ActiveListed(g, s) && tx in g.txs
    ensures ActiveIn(s, txs + {tx}) == ActiveIn(s, txs) + EdgesTo(tx, s.activeChildren[tx])
  {
    assert forall d: Dep :: d == Dep(d.parent, d.child);
  }

  /** The top set of `d` is not below the chunk `k`. */
  ghost predicate TopAtLeast(s: State, k: nat, d: Dep)
    requires DepsWithin(s) && k < |s.setTx| && |s.setFee| == |s.setTx| && |s.setSize| == |s.setTx| && d in s.depTop
  {
    !SlotBeats(s, k, s.depTop[d])
  }

  /** Splitting at `d` moves the pivot the way that is asked for. */
  ghost predicate Movable(s: State, k: nat, pivot: nat, moveDown: bool, d: Dep)
    requires DepsWithin(s) && k < |s.setTx| && |s.setFee| == |s.setTx| && |s.setSize| == |s.setTx| && d in s.depTop
  {
    TopAtLeast(s, k, d) && (pivot in s.setTx[s.depTop[d]]) != moveDown
  }

  /** What is known after the dependencies in `seen`. */
  ghost predicate EvenScanned(s: State, k: nat, pivot: nat, moveDown: bool, seen: set<Dep>,
                              haveAny: bool, candidate: Dep, candidateTiebreak: nat)
    requires DepsWithin(s) && k < |s.setTx| && |s.setFee| == |s.setTx| && |s.setSize| == |s.setTx|
  {
    && (forall d :: d in seen ==> d in s.depTop)
    && (haveAny <==> exists d :: d in seen && TopAtLeast(s, k, d))
    && (candidateTiebreak == 0 ==> forall d :: d in seen ==> !Movable(s, k, pivot, moveDown, d))
    && (candidateTiebreak > 0 ==>
          candidate in s.depTop && candidate.parent in s.setTx[k] && Movable(s, k, pivot, moveDown, candidate))
  }

  lemma EvenIsActive(g: Cluster, s: State, k: nat, d: Dep)
    requires ValidState(g, s) && k in s.chunkIdxs && d in s.depTop && d.parent in s.setTx[k] && TopAtLeast(s, k, d)
    ensures Active(g, s, d) && s.chunkIdx[d.parent] == k
    ensures Chunked(g, TreesOf(g, s)) && k in TreesOf(g, s) && d in TreesOf(g, s)[k].tops
    ensures TreesOf(g, s)[k].tops[d] == s.setTx[s.depTop[d]] <= g.txs
    ensures !Below(Rate(g, TreesOf(g, s)[k].tops[d]), RateOf(g, TreesOf(g, s), k))
  {
    SlotRates(g, s, k);
  }

  /** What a scan for a top set that is not below its chunk tells: without one,
      the chunk is minimal; and if none is with, or without, the pivot, it
      cannot be split so. */
  lemma ScanTells(g: Cluster, s: State, k: nat, pivot: nat, moveDown: bool, haveAny: bool, candidate: Dep,
                  tiebreak: nat)
    requires ValidState(g, s) && Chunked(g, TreesOf(g, s)) && Optimal(g, TreesOf(g, s)) && k in s.chunkIdxs
    requires s.setTx[k] <= g.txs && pivot in s.setTx[k]
    requires EvenScanned(s, k, pivot, moveDown, ActiveIn(s, s.setTx[k]), haveAny, candidate, tiebreak)
    ensures !haveAny ==> MinimalSet(g, s.setTx[k])
    ensures tiebreak == 0 ==> NoEvenPart(g, s.setTx[k], pivot, !moveDown)
  {
    var t := TreesOf(g, s);
    SlotRates(g, s, k);
    TreeIn(g, s, k);
    assert Unbeaten(g, t, k);
    if !haveAny {
      NoEvenTop(g, t, k);
    }
    if tiebreak == 0 {
      NoEvenTopAround(g, t, k, pivot, !moveDown);
    }
  }

  /** The pivot is in the part it was to be moved to. */
  lemma PivotPart(g: Cluster, s: State, k: nat, pivot: nat, moveDown: bool, d: Dep, top: nat, t1: Forest)
    requires ValidState(g, s) && Chunked(g, TreesOf(g, s)) && Parted(TreesOf(g, s), k, d, top, t1)
    requires k in s.chunkIdxs && d in s.depTop && d.parent in s.setTx[k]
    requires pivot in s.setTx[k] && Movable(s, k, pivot, moveDown, d)
    ensures k in t1 && top in t1 && pivot in t1[if moveDown then k else top].txs
  {
    SlotRates(g, s, k);
    TreeIn(g, s, k);
    PartedIsCut(g, TreesOf(g, s), k, d, top, t1);
  }

  lemma SplitIsFound(g: Cluster, s: State, k: nat, seen: set<Dep>, candidate: Option<Dep>)
    requires ValidState(g, s) && k in s.chunkIdxs && s.setTx[k] <= g.txs
    requires forall d :: d in s.depTop && d.parent in s.setTx[k] ==> d in seen
    requires SplitScanned(s, k, seen, candidate)
    ensures SplitFound(g, s, k, candidate)
  {
    SlotRates(g, s, k);
    if candidate.None? {
      UnbeatenByTops(g, TreesOf(g, s), k);
    }
  }

  /** The chunk of something that was not seen yet. */
  lemma SeenChunk(g: Cluster, s: State, k: nat, downward: bool, seen: set<nat>, x: nat)
    requires ValidState(g, s) && k in s.chunkIdxs
    requires Chunked(if downward then Mirror(g) else g, TreesOf(g, s)) && seen <= TreesOf(g, s).Keys
    requires k in TreesOf(g, s)
    requires x in Unseen(if downward then Mirror(g) else g, TreesOf(g, s), k, seen)
    ensures var v, t := if downward then Mirror(g) else g, TreesOf(g, s);
            && x < |s.chunkIdx|
            && var r := s.chunkIdx[x];
            && r in s.chunkIdxs && r in t && r != k && r !in seen && DependsOn(v, t, k, r)
            && t[r].txs == s.setTx[r]
            && RateOf(v, t, r) == ViewRate(s.setFee[r], s.setSize[r], downward)
            && Unseen(v, t, k, seen) - s.setTx[r] == Unseen(v, t, k, seen + {r})
            && |Unseen(v, t, k, seen + {r})| < |Unseen(v, t, k, seen)|
  {
    var v, t := if downward then Mirror(g) else g, TreesOf(g, s);
    assert x in g.txs;
    var r := s.chunkIdx[x];
    ViewChunked(g, s, r, downward);
    Reached(v, t, k, seen, x, r);
  }

  /** The dependencies of `bot` on the transactions of `todo`. */
  ghost function DepCount(children: seq<set<nat>>, todo: set<nat>, bot: set<nat>): nat
    requires Within(todo, |children|)
    decreases |todo|
  {
    if todo == {} then 0 else
      |children[Lowest(todo)] * bot| + DepCount(children, todo - {Lowest(todo)}, bot)
  }

  lemma {:induction false} CountPositive(children: seq<set<nat>>, todo: set<nat>, bot: set<nat>, p: nat, c: nat)
    requires Within(todo, |children|) && p in todo && c in children[p] && c in bot
    ensures DepCount(children, todo, bot) > 0
    decreases |todo|
  {
    if p == Lowest(todo) {
      assert c in children[p] * bot;
    } else {
      CountPositive(children, todo - {Lowest(todo)}, bot, p, c);
    }
  }

  lemma NeedsCounted(g: Cluster, top: set<nat>, bot: set<nat>)
    requires ValidCluster(g) && top <= g.txs && bot <= g.txs && Needs(g, bot, top)
    ensures Within(top, |g.children|) && DepCount(g.children, top, bot) > 0
  {
    var c, p :| c in bot && p in top && p in g.parents[c];
    CountPositive(g.children, top, bot, p, c);
  }

  lemma Pickable(g: Cluster, s: State, top: nat, bottom: nat, d: Dep)
    requires ValidState(g, s) && top in s.chunkIdxs && bottom in s.chunkIdxs && top != bottom
    requires d.parent in s.setTx[top] && d.child in s.setTx[bottom] && d.child in g.children[d.parent]
    ensures CanActivate(g, s, d) && s.chunkIdx[d.parent] == top && s.chunkIdx[d.child] == bottom
  {
  }

  lemma PopKeeps(q: seq<nat>, s: set<nat>)
    requires q != [] && multiset(q) == multiset(s)
    ensures q[0] in s && multiset(q[1..]) == multiset(s - {q[0]})
  {
    assert q == [q[0]] + q[1..];
    assert q[0] in multiset(q);
    assert multiset(s) == multiset(s - {q[0]}) + multiset{q[0]};
    assert multiset(q[1..]) == multiset(q) - multiset{q[0]};
  }

  lemma EmptyQueueIf(q: seq<nat>, s: set<nat>)
    requires multiset(q) == multiset(s)
    ensures q == [] ==> s == {}
  {
    if q == [] {
      EmptyQueue(q, s);
    }
  }

  lemma EmptyQueue(q: seq<nat>, s: set<nat>)
    requires q == [] && multiset(q) == multiset(s)
    ensures s == {}
  {
    assert forall i :: i in s ==> i in multiset(s);
  }

  lemma SwapKeeps<T>(q: seq<T>, i: nat, j: nat)
    requires i <= j < |q|
    ensures multiset(Swapped(q, i, j)) == multiset(q) && (i == j ==> Swapped(q, i, j) == q)
  {
  }

  lemma NextKid(s: State, x: nat, kids: set<nat>, todo: set<nat>, c: nat)
    requires todo <= kids && c in todo && forall k :: k in kids ==> Dep(x, k) in s.depTop
    requires forall d, e :: d in s.depTop && e in s.depTop && s.depTop[d] == s.depTop[e] ==> d == e
    ensures KidSlots(s, x, kids - (todo - {c})) == KidSlots(s, x, kids - todo) + {s.depTop[Dep(x, c)]}
    ensures s.depTop[Dep(x, c)] !in KidSlots(s, x, kids - todo)
  {
    assert kids - (todo - {c}) == (kids - todo) + {c};
  }
}
