/** What the arrays of a spanning forest hold, and the trees they stand for. */
module ForestStates {
  import opened Clusters
  import opened FeeRates
  import opened Forests
  import opened SetSums
  import opened Trees

  /** The arrays of a `SpanningForestState`. Each slot of the set arrays holds
      either a chunk or the top set of an active dependency. */
  datatype State = State(
    activeChildren: seq<set<nat>>,
    chunkIdx: seq<nat>,
    depTop: map<Dep, nat>,
    setTx: seq<set<nat>>,
    setFee: seq<int>,
    setSize: seq<int>,
    reachUp: seq<set<nat>>,
    reachDown: seq<set<nat>>,
    chunkIdxs: set<nat>)

  ghost predicate Shaped(g: Cluster, s: State) {
    && ValidCluster(g)
    && |s.activeChildren| == |g.fees| && |s.chunkIdx| == |g.fees|
    && |s.setFee| == |s.setTx| && |s.setSize| == |s.setTx|
    && |s.reachUp| == |s.setTx| && |s.reachDown| == |s.setTx|
    && Within(s.chunkIdxs, |s.setTx|)
    && (forall d :: d in s.depTop ==> s.depTop[d] < |s.setTx|)
  }

  /** Every slot is a chunk or one dependency's top set, and only one. */
  ghost predicate SlotsSplit(s: State) {
    && (forall d :: d in s.depTop ==> s.depTop[d] !in s.chunkIdxs)
    && (forall d, e :: d in s.depTop && e in s.depTop && s.depTop[d] == s.depTop[e] ==> d == e)
    && forall i :: 0 <= i < |s.setTx| ==> i in s.chunkIdxs || Taken(s, i)
  }

  ghost predicate Taken(s: State, i: nat) {
    exists d :: d in s.depTop && s.depTop[d] == i
  }

  ghost predicate ActiveListed(g: Cluster, s: State)
    requires Shaped(g, s)
  {
    && (forall d :: d in s.depTop ==> d.parent in g.txs && d.child in g.txs)
    && forall p, c :: p in g.txs ==> (c in s.activeChildren[p] <==> Dep(p, c) in s.depTop)
  }

  /** Every transaction is in the chunk it is listed in, and only there. */
  ghost predicate ChunksListed(g: Cluster, s: State)
    requires Shaped(g, s)
  {
    && (forall x :: x in g.txs ==> s.chunkIdx[x] in s.chunkIdxs && x in s.setTx[s.chunkIdx[x]])
    && forall k, x :: k in s.chunkIdxs && x in s.setTx[k] ==> x in g.txs && s.chunkIdx[x] == k
  }

  ghost predicate SetsSummed(g: Cluster, s: State)
    requires Shaped(g, s)
  {
    forall i :: 0 <= i < |s.setTx| ==>
      s.setTx[i] <= g.txs && s.setFee[i] == Sum(g.fees, s.setTx[i]) && s.setSize[i] == Sum(g.sizes, s.setTx[i])
  }

  ghost predicate ReachListed(g: Cluster, s: State)
    requires Shaped(g, s) && SetsSummed(g, s)
  {
    forall k :: k in s.chunkIdxs ==>
      && s.reachUp[k] == Up(g, s.setTx[k]) - s.setTx[k]
      && s.reachDown[k] == Up(Mirror(g), s.setTx[k]) - s.setTx[k]
  }

  ghost function TopsIn(s: State, txs: set<nat>): map<Dep, set<nat>>
    requires forall d :: d in s.depTop ==> s.depTop[d] < |s.setTx|
  {
    map d | d in s.depTop && d.parent in txs :: s.setTx[s.depTop[d]]
  }

  ghost function TreeOf(s: State, k: nat): Tree
    requires k < |s.setTx| && forall d :: d in s.depTop ==> s.depTop[d] < |s.setTx|
  {
    Tree(s.setTx[k], TopsIn(s, s.setTx[k]))
  }

  /** The trees that the arrays stand for. */
  ghost function TreesOf(g: Cluster, s: State): Forest
    requires Shaped(g, s)
  {
    map k | k in s.chunkIdxs :: TreeOf(s, k)
  }

  ghost predicate Indexed(g: Cluster, s: State) {
    Shaped(g, s) && SlotsSplit(s) && ActiveListed(g, s) && ChunksListed(g, s)
  }

  ghost predicate ValidState(g: Cluster, s: State) {
    && Indexed(g, s) && SetsSummed(g, s) && ReachListed(g, s)
    && ValidForest(g, TreesOf(g, s))
  }

  // --- activating a dependency ---

  ghost predicate Inactive(g: Cluster, s: State, d: Dep) {
    && Indexed(g, s) && d.parent in g.txs && d.child in g.txs
    && s.chunkIdx[d.parent] != s.chunkIdx[d.child]
  }

  ghost predicate CanActivate(g: Cluster, s: State, d: Dep) {
    ValidState(g, s) && Inactive(g, s, d) && d.parent in g.parents[d.child]
  }

  /** The slots of the dependencies within `side`. */
  ghost function SlotsIn(s: State, side: set<nat>): set<nat> {
    set e | e in s.depTop && e.parent in side :: s.depTop[e]
  }

  /** The set, fee and size of one slot. */
  datatype Slot = Slot(txs: set<nat>, fee: int, size: int) {
    function Add(b: Slot): Slot {
      Slot(txs + b.txs, fee + b.fee, size + b.size)
    }

    function Less(b: Slot): Slot {
      Slot(txs - b.txs, fee - b.fee, size - b.size)
    }
  }

  ghost function At(s: State, i: nat): Slot
    requires i < |s.setTx| && |s.setFee| == |s.setTx| && |s.setSize| == |s.setTx|
  {
    Slot(s.setTx[i], s.setFee[i], s.setSize[i])
  }

  /** `b` added to a slot, or taken away from it. */
  function Changed(a: Slot, b: Slot, add: bool): Slot {
    if add then a.Add(b) else a.Less(b)
  }

  /** `s'` has `part` added to each slot in `slots` that has `mark`, or taken
      away from it, and is otherwise `s`. */
  ghost predicate Adjusted(s: State, slots: set<nat>, mark: nat, part: Slot, add: bool, s': State)
    requires |s.setFee| == |s.setTx| && |s.setSize| == |s.setTx|
  {
    && |s'.setTx| == |s.setTx| && |s'.setFee| == |s.setTx| && |s'.setSize| == |s.setTx|
    && s' == s.(setTx := s'.setTx, setFee := s'.setFee, setSize := s'.setSize)
    && forall i :: 0 <= i < |s.setTx| ==>
         At(s', i) == if i in slots && mark in s.setTx[i] then Changed(At(s, i), part, add) else At(s, i)
  }

  lemma AdjustNone(s: State, mark: nat, part: Slot, add: bool)
    requires |s.setFee| == |s.setTx| && |s.setSize| == |s.setTx|
    ensures Adjusted(s, {}, mark, part, add, s)
  {
  }

  /** One more slot. */
  lemma AdjustOne(s: State, slots: set<nat>, mark: nat, part: Slot, add: bool, s': State, i: nat)
    requires |s.setFee| == |s.setTx| && |s.setSize| == |s.setTx|
    requires Adjusted(s, slots, mark, part, add, s') && i < |s.setTx| && i !in slots
    ensures At(s', i) == At(s, i)
    ensures var c := Changed(At(s, i), part, add);
            if mark in s.setTx[i]
            then Adjusted(s, slots + {i}, mark, part, add,
                          s'.(setTx := s'.setTx[i := c.txs], setFee := s'.setFee[i := c.fee],
                              setSize := s'.setSize[i := c.size]))
            else Adjusted(s, slots + {i}, mark, part, add, s')
  {
  }

  /** The slots of the dependencies of `x` on the children in `kids`. */
  ghost function KidSlots(s: State, x: nat, kids: set<nat>): set<nat>
    requires forall c :: c in kids ==> Dep(x, c) in s.depTop
  {
    set c | c in kids :: s.depTop[Dep(x, c)]
  }

  lemma SlotsWith(g: Cluster, s: State, side: set<nat>, x: nat)
    requires Shaped(g, s) && ActiveListed(g, s) && x in g.txs
    ensures forall c :: c in s.activeChildren[x] ==> Dep(x, c) in s.depTop
    ensures SlotsIn(s, side + {x}) == SlotsIn(s, side) + KidSlots(s, x, s.activeChildren[x])
  {
    assert forall e: Dep :: e == Dep(e.parent, e.child);
  }

  /** What a slot holds once `d` is active. */
  ghost function Activating(g: Cluster, s: State, d: Dep, i: nat): Slot
    requires Shaped(g, s) && ChunksListed(g, s) && d.parent in g.txs && d.child in g.txs && i < |s.setTx|
  {
    var top, bottom := s.chunkIdx[d.parent], s.chunkIdx[d.child];
    if i == bottom then At(s, bottom).Add(At(s, top))
    else if i in SlotsIn(s, s.setTx[top]) && d.parent in s.setTx[i] then At(s, i).Add(At(s, bottom))
    else if i in SlotsIn(s, s.setTx[bottom]) && d.child in s.setTx[i] then At(s, i).Add(At(s, top))
    else At(s, i)
  }

  /** `s'` is `s` with `d` activated. */
  ghost predicate Activated(g: Cluster, s: State, d: Dep, s': State)
    requires Inactive(g, s, d)
  {
    var top, bottom := s.chunkIdx[d.parent], s.chunkIdx[d.child];
    var merged := s.setTx[bottom] + s.setTx[top];
    && Shaped(g, s') && |s'.setTx| == |s.setTx|
    && s'.chunkIdxs == s.chunkIdxs - {top}
    && s'.depTop == s.depTop[d := top]
    && s'.activeChildren == s.activeChildren[d.parent := s.activeChildren[d.parent] + {d.child}]
    && (forall x :: 0 <= x < |s.chunkIdx| ==>
          s'.chunkIdx[x] == if x in s.setTx[top] then bottom else s.chunkIdx[x])
    && (forall i :: 0 <= i < |s.setTx| ==> At(s', i) == Activating(g, s, d, i))
    && s'.reachUp == s.reachUp[bottom := s.reachUp[bottom] + s.reachUp[top] - merged]
    && s'.reachDown == s.reachDown[bottom := s.reachDown[bottom] + s.reachDown[top] - merged]
  }

  /** The slots after both loops of an activation, and the last assignment. */
  lemma ActivateFromLoops(g: Cluster, s: State, d: Dep, s1: State, s2: State, i: nat)
    requires Inactive(g, s, d) && i < |s.setTx|
    requires Adjusted(s, SlotsIn(s, s.setTx[s.chunkIdx[d.parent]]), d.parent, At(s, s.chunkIdx[d.child]), true, s1)
    requires Adjusted(s1, SlotsIn(s, s.setTx[s.chunkIdx[d.child]]), d.child, At(s, s.chunkIdx[d.parent]), true, s2)
    ensures |s2.setTx| == |s.setTx| && |s2.setFee| == |s.setTx| && |s2.setSize| == |s.setTx|
    ensures i != s.chunkIdx[d.child] ==> At(s2, i) == Activating(g, s, d, i)
  {
    var j, k := s.chunkIdx[d.parent], s.chunkIdx[d.child];
    ChunksApart(g, s, j, k);
    if i in SlotsIn(s, s.setTx[j]) {
      SlotsDisjoint(g, s, i, j, k);
    }
  }

  lemma ActivatedFromLoops(g: Cluster, s: State, d: Dep, s1: State, s2: State, s': State)
    requires Inactive(g, s, d) && Shaped(g, s')
    requires Adjusted(s, SlotsIn(s, s.setTx[s.chunkIdx[d.parent]]), d.parent, At(s, s.chunkIdx[d.child]), true, s1)
    requires Adjusted(s1, SlotsIn(s, s.setTx[s.chunkIdx[d.child]]), d.child, At(s, s.chunkIdx[d.parent]), true, s2)
    requires var top, bottom := s.chunkIdx[d.parent], s.chunkIdx[d.child];
             var m := At(s, bottom).Add(At(s, top));
             && s'.setTx == s2.setTx[bottom := m.txs]
             && s'.setFee == s2.setFee[bottom := m.fee] && s'.setSize == s2.setSize[bottom := m.size]
             && s'.chunkIdxs == s.chunkIdxs - {top} && s'.depTop == s.depTop[d := top]
             && s'.activeChildren == s.activeChildren[d.parent := s.activeChildren[d.parent] + {d.child}]
             && (forall x :: 0 <= x < |s.chunkIdx| ==>
                   s'.chunkIdx[x] == if x in s.setTx[top] then bottom else s.chunkIdx[x])
             && s'.reachUp == s.reachUp[bottom := s.reachUp[bottom] + s.reachUp[top] - m.txs]
             && s'.reachDown == s.reachDown[bottom := s.reachDown[bottom] + s.reachDown[top] - m.txs]
    ensures Activated(g, s, d, s')
  {
    forall i | 0 <= i < |s.setTx|
      ensures At(s', i) == Activating(g, s, d, i)
    {
      ActivateFromLoops(g, s, d, s1, s2, i);
    }
  }

  lemma SlotsDisjoint(g: Cluster, s: State, i: nat, j: nat, k: nat)
    requires Indexed(g, s) && j in s.chunkIdxs && k in s.chunkIdxs && j != k && i in SlotsIn(s, s.setTx[j])
    ensures i !in SlotsIn(s, s.setTx[k])
  {
    var e :| e in s.depTop && e.parent in s.setTx[j] && s.depTop[e] == i;
    SlotsApart(g, s, e, j, k);
  }

  lemma TreeIn(g: Cluster, s: State, k: nat)
    requires ValidState(g, s) && k in s.chunkIdxs
    ensures k in TreesOf(g, s) && TreesOf(g, s)[k] == TreeOf(s, k) && ValidTree(TreeOf(s, k))
    ensures s.setTx[k] <= g.txs
  {
  }

  /** An active dependency lies within one chunk, and its top set too. */
  ghost predicate EdgeWithin(g: Cluster, s: State, e: Dep, k: nat)
    requires Shaped(g, s) && e in s.depTop && k < |s.setTx|
  {
    && e.parent in s.setTx[k] && e.child in s.setTx[k]
    && e in TreeOf(s, k).tops && TreeOf(s, k).tops[e] == s.setTx[s.depTop[e]]
    && IsCut(TreeOf(s, k), e, s.setTx[s.depTop[e]])
  }

  lemma EdgeIn(g: Cluster, s: State, e: Dep, k: nat)
    requires ValidState(g, s) && e in s.depTop && k in s.chunkIdxs && e.parent in s.setTx[k]
    ensures EdgeWithin(g, s, e, k) && s.setTx[s.depTop[e]] <= s.setTx[k]
  {
    TreeIn(g, s, k);
    TreeEdge(TreeOf(s, k), e);
  }

  lemma TreeEdge(t: Tree, e: Dep)
    requires ValidTree(t) && e in t.tops
    ensures e.parent in t.txs && e.child in t.txs && IsCut(t, e, t.tops[e]) && t.tops[e] <= t.txs
  {
  }

  /** A top set's slot is among those of its own chunk only. */
  lemma SlotsApart(g: Cluster, s: State, e: Dep, k: nat, j: nat)
    requires Shaped(g, s) && SlotsSplit(s) && ChunksListed(g, s) && j in s.chunkIdxs && k in s.chunkIdxs && j != k
    requires e in s.depTop && e.parent in s.setTx[k]
    ensures s.depTop[e] !in SlotsIn(s, s.setTx[j])
    ensures s.depTop[e] in SlotsIn(s, s.setTx[k])
  {
    assert e.parent in g.txs;
    assert s.chunkIdx[e.parent] == k;
    assert forall x :: x in s.setTx[j] ==> x in g.txs && s.chunkIdx[x] == j;
  }

  /** The slot of a chunk is none of the top sets'. */
  lemma ChunkSlot(s: State, k: nat, side: set<nat>)
    requires SlotsSplit(s) && k in s.chunkIdxs
    ensures k !in SlotsIn(s, side)
  {
  }

  lemma ActivateOtherTop(g: Cluster, s: State, d: Dep, s': State, k: nat, e: Dep)
    requires Inactive(g, s, d) && Activated(g, s, d, s') && k in s.chunkIdxs
    requires k != s.chunkIdx[d.child] && k != s.chunkIdx[d.parent] && e in s.depTop && e.parent in s.setTx[k]
    ensures s'.setTx[s.depTop[e]] == s.setTx[s.depTop[e]]
  {
    SlotsApart(g, s, e, k, s.chunkIdx[d.parent]);
    SlotsApart(g, s, e, k, s.chunkIdx[d.child]);
    assert s.depTop[e] !in s.chunkIdxs;
    assert At(s', s.depTop[e]) == At(s, s.depTop[e]);
  }

  ghost predicate DepsWithin(s: State) {
    forall d :: d in s.depTop ==> s.depTop[d] < |s.setTx|
  }

  lemma SameTops(s: State, s': State, txs: set<nat>)
    requires DepsWithin(s) && DepsWithin(s')
    requires forall e: Dep :: e.parent in txs ==> (e in s.depTop <==> e in s'.depTop)
    requires forall e :: e in s.depTop && e.parent in txs ==> s'.setTx[s'.depTop[e]] == s.setTx[s.depTop[e]]
    ensures TopsIn(s', txs) == TopsIn(s, txs)
  {
  }

  lemma ActivateOther(g: Cluster, s: State, d: Dep, s': State, k: nat)
    requires Inactive(g, s, d) && Activated(g, s, d, s') && k in s.chunkIdxs
    requires k != s.chunkIdx[d.child] && k != s.chunkIdx[d.parent]
    ensures TreeOf(s', k) == TreeOf(s, k)
  {
    ChunkSlot(s, k, s.setTx[s.chunkIdx[d.parent]]);
    ChunkSlot(s, k, s.setTx[s.chunkIdx[d.child]]);
    assert At(s', k) == At(s, k);
    assert d.parent !in s.setTx[k];
    forall e | e in s.depTop && e.parent in s.setTx[k]
      ensures s'.setTx[s'.depTop[e]] == s.setTx[s.depTop[e]]
    {
      ActivateOtherTop(g, s, d, s', k, e);
    }
    SameTops(s, s', s.setTx[k]);
  }

  lemma ActivateTop(g: Cluster, s: State, d: Dep, s': State, e: Dep)
    requires Inactive(g, s, d) && Activated(g, s, d, s')
    requires e in s.depTop && e.parent in s.setTx[s.chunkIdx[d.parent]]
    ensures s'.setTx[s.depTop[e]]
         == if d.parent in s.setTx[s.depTop[e]] then s.setTx[s.depTop[e]] + s.setTx[s.chunkIdx[d.child]]
            else s.setTx[s.depTop[e]]
  {
    SlotsApart(g, s, e, s.chunkIdx[d.parent], s.chunkIdx[d.child]);
    assert s.depTop[e] !in s.chunkIdxs;
    assert At(s', s.depTop[e]) == Activating(g, s, d, s.depTop[e]);
  }

  lemma ActivateBottom(g: Cluster, s: State, d: Dep, s': State, e: Dep)
    requires Inactive(g, s, d) && Activated(g, s, d, s')
    requires e in s.depTop && e.parent in s.setTx[s.chunkIdx[d.child]]
    ensures s'.setTx[s.depTop[e]]
         == if d.child in s.setTx[s.depTop[e]] then s.setTx[s.depTop[e]] + s.setTx[s.chunkIdx[d.parent]]
            else s.setTx[s.depTop[e]]
  {
    SlotsApart(g, s, e, s.chunkIdx[d.child], s.chunkIdx[d.parent]);
    assert s.depTop[e] !in s.chunkIdxs;
    assert At(s', s.depTop[e]) == Activating(g, s, d, s.depTop[e]);
  }

  lemma ActivateOwnSlots(g: Cluster, s: State, d: Dep, s': State)
    requires Inactive(g, s, d) && Activated(g, s, d, s')
    ensures s'.setTx[s.chunkIdx[d.parent]] == s.setTx[s.chunkIdx[d.parent]]
    ensures s'.setTx[s.chunkIdx[d.child]] == s.setTx[s.chunkIdx[d.child]] + s.setTx[s.chunkIdx[d.parent]]
  {
    var top, bottom := s.chunkIdx[d.parent], s.chunkIdx[d.child];
    ChunkSlot(s, top, s.setTx[top]);
    ChunkSlot(s, top, s.setTx[bottom]);
    assert At(s', top) == Activating(g, s, d, top);
    assert At(s', bottom) == Activating(g, s, d, bottom);
  }

  lemma NotYetActive(g: Cluster, s: State, d: Dep)
    requires CanActivate(g, s, d)
    ensures d !in s.depTop
    ensures Joinable(TreeOf(s, s.chunkIdx[d.parent]), TreeOf(s, s.chunkIdx[d.child]), d)
  {
    var top, bottom := s.chunkIdx[d.parent], s.chunkIdx[d.child];
    TreeIn(g, s, top);
    TreeIn(g, s, bottom);
    assert forall x :: x in s.setTx[top] ==> x in g.txs && s.chunkIdx[x] == top;
    assert forall x :: x in s.setTx[bottom] ==> x in g.txs && s.chunkIdx[x] == bottom;
    if d in s.depTop {
      EdgeIn(g, s, d, top);
    }
  }

  /** Joining, from what each slot holds. */
  lemma JoinedTops(s: State, s': State, d: Dep, top: set<nat>, bottom: set<nat>)
    requires DepsWithin(s) && DepsWithin(s') && d !in s.depTop && d in s'.depTop && top !! bottom
    requires d.parent in top && s'.setTx[s'.depTop[d]] == top
    requires forall e: Dep :: e != d ==> (e in s.depTop <==> e in s'.depTop)
    requires forall e :: e in s.depTop && e.parent in top ==>
               s'.setTx[s'.depTop[e]] == Widen(TopsIn(s, top), d.parent, bottom)[e]
    requires forall e :: e in s.depTop && e.parent in bottom ==>
               s'.setTx[s'.depTop[e]] == Widen(TopsIn(s, bottom), d.child, top)[e]
    ensures TopsIn(s', bottom + top)
         == (Widen(TopsIn(s, top), d.parent, bottom) + Widen(TopsIn(s, bottom), d.child, top))[d := top]
  {
  }

  lemma ActivatedTops(g: Cluster, s: State, d: Dep, s': State, top: set<nat>, bottom: set<nat>)
    requires Inactive(g, s, d) && Activated(g, s, d, s') && d !in s.depTop
    requires top == s.setTx[s.chunkIdx[d.parent]] && bottom == s.setTx[s.chunkIdx[d.child]] && top !! bottom
    ensures TopsIn(s', bottom + top)
         == (Widen(TopsIn(s, top), d.parent, bottom) + Widen(TopsIn(s, bottom), d.child, top))[d := top]
  {
    ActivateOwnSlots(g, s, d, s');
    forall e | e in s.depTop && e.parent in top
      ensures s'.setTx[s'.depTop[e]] == Widen(TopsIn(s, top), d.parent, bottom)[e]
    {
      ActivateTop(g, s, d, s', e);
    }
    forall e | e in s.depTop && e.parent in bottom
      ensures s'.setTx[s'.depTop[e]] == Widen(TopsIn(s, bottom), d.child, top)[e]
    {
      ActivateBottom(g, s, d, s', e);
    }
    JoinedTops(s, s', d, top, bottom);
  }

  /** Activating a dependency joins the two trees. */
  lemma ActivateJoins(g: Cluster, s: State, d: Dep, s': State)
    requires CanActivate(g, s, d) && Activated(g, s, d, s')
    ensures TreeOf(s', s.chunkIdx[d.child])
         == Join(TreeOf(s, s.chunkIdx[d.parent]), TreeOf(s, s.chunkIdx[d.child]), d)
  {
    var top, bottom := s.setTx[s.chunkIdx[d.parent]], s.setTx[s.chunkIdx[d.child]];
    NotYetActive(g, s, d);
    ActivateOwnSlots(g, s, d, s');
    ActivatedTops(g, s, d, s', top, bottom);
    assert bottom + top == top + bottom;
  }

  lemma StillTaken(s: State, s': State, i: nat)
    requires Taken(s, i) && forall e :: e in s.depTop ==> e in s'.depTop && s'.depTop[e] == s.depTop[e]
    ensures Taken(s', i)
  {
    var e :| e in s.depTop && s.depTop[e] == i;
    assert e in s'.depTop && s'.depTop[e] == i;
  }

  lemma ActivateSlots(g: Cluster, s: State, d: Dep, s': State)
    requires Inactive(g, s, d) && Activated(g, s, d, s') && d !in s.depTop
    ensures SlotsSplit(s')
  {
    var top := s.chunkIdx[d.parent];
    assert d in s'.depTop && s'.depTop[d] == top;
    assert Taken(s', top);
    forall i | 0 <= i < |s'.setTx|
      ensures i in s'.chunkIdxs || Taken(s', i)
    {
      if i !in s.chunkIdxs {
        StillTaken(s, s', i);
      }
    }
    forall e, f | e in s'.depTop && f in s'.depTop && s'.depTop[e] == s'.depTop[f]
      ensures e == f
    {
      assert e == d || s.depTop[e] !in s.chunkIdxs;
      assert f == d || s.depTop[f] !in s.chunkIdxs;
    }
  }

  lemma ActivateListed(g: Cluster, s: State, d: Dep, s': State)
    requires Inactive(g, s, d) && Activated(g, s, d, s')
    ensures ActiveListed(g, s')
  {
  }

  lemma ActivateChunks(g: Cluster, s: State, d: Dep, s': State)
    requires Inactive(g, s, d) && Activated(g, s, d, s')
    ensures ChunksListed(g, s')
  {
    var top, bottom := s.chunkIdx[d.parent], s.chunkIdx[d.child];
    ActivateOwnSlots(g, s, d, s');
    forall k | k in s.chunkIdxs && k != top && k != bottom
      ensures s'.setTx[k] == s.setTx[k]
    {
      ActivateOther(g, s, d, s', k);
    }
    assert forall x :: x in g.txs ==> s.chunkIdx[x] in s.chunkIdxs;
  }

  /** Adding up two disjoint slots. */
  lemma AddSums(g: Cluster, a: Slot, b: Slot)
    requires ValidCluster(g) && a.txs <= g.txs && b.txs <= g.txs && a.txs !! b.txs
    requires a.fee == Sum(g.fees, a.txs) && a.size == Sum(g.sizes, a.txs)
    requires b.fee == Sum(g.fees, b.txs) && b.size == Sum(g.sizes, b.txs)
    ensures a.Add(b).fee == Sum(g.fees, a.Add(b).txs) && a.Add(b).size == Sum(g.sizes, a.Add(b).txs)
    ensures a.Add(b).txs <= g.txs
  {
    SumUnion(g.fees, a.txs, b.txs);
    SumUnion(g.sizes, a.txs, b.txs);
  }

  lemma ChunksApart(g: Cluster, s: State, j: nat, k: nat)
    requires Shaped(g, s) && ChunksListed(g, s) && j in s.chunkIdxs && k in s.chunkIdxs && j != k
    ensures s.setTx[j] !! s.setTx[k]
  {
    assert forall x :: x in s.setTx[j] ==> x in g.txs && s.chunkIdx[x] == j;
  }

  lemma SlotWithin(g: Cluster, s: State, i: nat, k: nat)
    requires ValidState(g, s) && k in s.chunkIdxs && i in SlotsIn(s, s.setTx[k])
    ensures i < |s.setTx| && s.setTx[i] <= s.setTx[k]
  {
    var e :| e in s.depTop && e.parent in s.setTx[k] && s.depTop[e] == i;
    EdgeIn(g, s, e, k);
  }

  lemma ActivateSums(g: Cluster, s: State, d: Dep, s': State)
    requires CanActivate(g, s, d) && Activated(g, s, d, s')
    ensures SetsSummed(g, s')
  {
    var top, bottom := s.chunkIdx[d.parent], s.chunkIdx[d.child];
    ChunksApart(g, s, top, bottom);
    forall i | 0 <= i < |s'.setTx|
      ensures s'.setTx[i] <= g.txs && s'.setFee[i] == Sum(g.fees, s'.setTx[i])
      ensures s'.setSize[i] == Sum(g.sizes, s'.setTx[i])
    {
      assert At(s', i) == Activating(g, s, d, i);
      if i == bottom {
        AddSums(g, At(s, bottom), At(s, top));
      } else if i in SlotsIn(s, s.setTx[top]) && d.parent in s.setTx[i] {
        SlotWithin(g, s, i, top);
        AddSums(g, At(s, i), At(s, bottom));
      } else if i in SlotsIn(s, s.setTx[bottom]) && d.child in s.setTx[i] {
        SlotWithin(g, s, i, bottom);
        AddSums(g, At(s, i), At(s, top));
      }
    }
  }

  lemma UpUnion(g: Cluster, a: set<nat>, b: set<nat>)
    requires ValidCluster(g) && a <= g.txs && b <= g.txs
    ensures Up(g, a + b) - (a + b) == (Up(g, a) - a) + (Up(g, b) - b) - (a + b)
  {
    assert Up(g, a + b) == Up(g, a) + Up(g, b);
  }

  lemma ActivateReach(g: Cluster, s: State, d: Dep, s': State)
    requires CanActivate(g, s, d) && Activated(g, s, d, s') && SetsSummed(g, s')
    ensures ReachListed(g, s')
  {
    var top, bottom := s.chunkIdx[d.parent], s.chunkIdx[d.child];
    var a, b := s.setTx[bottom], s.setTx[top];
    ActivateOwnSlots(g, s, d, s');
    MirrorValid(g);
    UpUnion(g, a, b);
    UpUnion(Mirror(g), a, b);
    forall k | k in s'.chunkIdxs && k != bottom
      ensures s'.setTx[k] == s.setTx[k]
    {
      ActivateOther(g, s, d, s', k);
    }
  }

  lemma TreesWithout(g: Cluster, s: State, s': State, top: nat, bottom: nat, joined: Tree)
    requires Shaped(g, s) && Shaped(g, s') && top in s.chunkIdxs && bottom in s.chunkIdxs && top != bottom
    requires s'.chunkIdxs == s.chunkIdxs - {top} && bottom < |s'.setTx| && TreeOf(s', bottom) == joined
    requires forall k :: k in s'.chunkIdxs && k != bottom ==> TreeOf(s', k) == TreeOf(s, k)
    ensures TreesOf(g, s') == (TreesOf(g, s) - {top})[bottom := joined]
  {
  }

  lemma ActivateTrees(g: Cluster, s: State, d: Dep, s': State)
    requires CanActivate(g, s, d) && Activated(g, s, d, s')
    ensures var top, bottom := s.chunkIdx[d.parent], s.chunkIdx[d.child];
            TreesOf(g, s') == (TreesOf(g, s) - {top})[bottom := Join(TreeOf(s, top), TreeOf(s, bottom), d)]
  {
    var top, bottom := s.chunkIdx[d.parent], s.chunkIdx[d.child];
    ActivateJoins(g, s, d, s');
    forall k | k in s'.chunkIdxs && k != bottom
      ensures TreeOf(s', k) == TreeOf(s, k)
    {
      ActivateOther(g, s, d, s', k);
    }
    TreesWithout(g, s, s', top, bottom, TreeOf(s', bottom));
  }

  /** A forest with two trees joined along a dependency. */
  lemma JoinedForest(g: Cluster, t: Forest, top: nat, bottom: nat, d: Dep)
    requires ValidForest(g, t) && top in t && bottom in t && top != bottom
    requires Joinable(t[top], t[bottom], d) && d.parent in g.parents[d.child]
    ensures ValidForest(g, (t - {top})[bottom := Join(t[top], t[bottom], d)])
  {
    var t' := (t - {top})[bottom := Join(t[top], t[bottom], d)];
    JoinValid(t[top], t[bottom], d);
    forall e | e in t'[bottom].tops
      ensures e.parent in g.parents[e.child]
    {
      assert e == d || e in t[top].tops || e in t[bottom].tops;
    }
    forall j, k | j in t' && k in t' && j != k
      ensures t'[j].txs !! t'[k].txs
    {
      if j == bottom {
        assert t[k].txs !! t[top].txs && t[k].txs !! t[bottom].txs;
      } else if k == bottom {
        assert t[j].txs !! t[top].txs && t[j].txs !! t[bottom].txs;
      }
    }
  }

  /** Activating a dependency keeps the arrays right, and joins two trees. */
  lemma ActivateValid(g: Cluster, s: State, d: Dep, s': State)
    requires CanActivate(g, s, d) && Activated(g, s, d, s')
    ensures ValidState(g, s')
    ensures var top, bottom := s.chunkIdx[d.parent], s.chunkIdx[d.child];
            && Joinable(TreeOf(s, top), TreeOf(s, bottom), d)
            && TreesOf(g, s') == (TreesOf(g, s) - {top})[bottom := Join(TreeOf(s, top), TreeOf(s, bottom), d)]
  {
    NotYetActive(g, s, d);
    ActivateSlots(g, s, d, s');
    ActivateListed(g, s, d, s');
    ActivateChunks(g, s, d, s');
    ActivateSums(g, s, d, s');
    ActivateReach(g, s, d, s');
    ActivateTrees(g, s, d, s');
    JoinedForest(g, TreesOf(g, s), s.chunkIdx[d.parent], s.chunkIdx[d.child], d);
  }

  ghost function SlotRate(s: State, i: nat): FeeFrac
    requires i < |s.setTx| && |s.setFee| == |s.setTx| && |s.setSize| == |s.setTx|
  {
    FeeFrac(s.setFee[i], s.setSize[i])
  }

  /** What the slots of a chunk and of a top set are worth. */
  lemma SlotRates(g: Cluster, s: State, k: nat)
    requires ValidState(g, s) && k in s.chunkIdxs
    ensures Chunked(g, TreesOf(g, s)) && k in TreesOf(g, s)
    ensures SlotRate(s, k) == RateOf(g, TreesOf(g, s), k)
    ensures forall d :: d in s.depTop && d.parent in s.setTx[k] ==>
              && d in TreesOf(g, s)[k].tops && TreesOf(g, s)[k].tops[d] == s.setTx[s.depTop[d]] <= g.txs
              && SlotRate(s, s.depTop[d]) == Rate(g, s.setTx[s.depTop[d]])
    ensures forall d :: d in TreesOf(g, s)[k].tops ==> d in s.depTop && d.parent in s.setTx[k]
  {
    TreeIn(g, s, k);
  }
}
