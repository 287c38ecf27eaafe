/** A cluster's fees, sizes, ancestors and descendants. */
module DepGraphs {
  import opened Bits

  /** What a `DepGraph` holds at one moment. */
  datatype Graph = Graph(
    fees: seq<int>,
    sizes: seq<int>,
    ancestors: seq<set<nat>>,
    descendants: seq<set<nat>>,
    positions: set<nat>)

  ghost predicate SameLength(g: Graph) {
    && |g.sizes| == |g.fees| && |g.ancestors| == |g.fees| && |g.descendants| == |g.fees|
    && forall i :: i in g.positions ==> i < |g.fees|
  }

  /** Among the positions in use, `descendants` is `ancestors` read backwards,
      and ancestry is reflexive and transitive. */
  ghost predicate Ancestry(g: Graph)
    requires SameLength(g)
  {
    && (forall i :: i in g.positions ==> i in g.ancestors[i] && g.ancestors[i] <= g.positions)
    && (forall i :: i in g.positions ==> g.descendants[i] <= g.positions)
    && (forall i, j :: i in g.positions && j in g.positions ==> (j in g.ancestors[i] <==> i in g.descendants[j]))
    && forall i, j :: i in g.positions && j in g.ancestors[i] ==> g.ancestors[j] <= g.ancestors[i]
  }

  ghost predicate ValidGraph(g: Graph) {
    && SameLength(g)
    && (|g.fees| > 0 ==> |g.fees| - 1 in g.positions)
    && Ancestry(g)
  }

  ghost predicate Acyclic(g: Graph)
    requires ValidGraph(g)
  {
    forall i, j :: i in g.positions && j in g.ancestors[i] && i in g.ancestors[j] ==> i == j
  }

  /** `j` is an ancestor of `i` once `parents` are made parents of `child`. */
  ghost predicate AncestorWith(g: Graph, parents: set<nat>, child: nat, j: nat, i: nat)
    requires ValidGraph(g) && i in g.positions && child in g.positions && parents <= g.positions
  {
    || j in g.ancestors[i]
    || (child in g.ancestors[i] && exists p :: p in parents && j in g.ancestors[p])
  }

  /** The strict ancestors of `i` that are not strict ancestors of another. */
  ghost function Parents(g: Graph, i: nat): set<nat>
    requires ValidGraph(g) && i in g.positions
  {
    set p | p in g.ancestors[i] && p != i
            && forall q :: q in g.ancestors[i] && q != i && q != p ==> p !in g.ancestors[q]
  }

  lemma Trimmed(g: Graph, g': Graph, delete: set<nat>)
    requires ValidGraph(g) && SameLength(g') && g'.positions == g.positions - delete
    requires |g'.fees| > 0 ==> |g'.fees| - 1 in g'.positions
    requires forall k :: k in g'.positions ==>
               && g'.ancestors[k] == g.ancestors[k] * g'.positions
               && g'.descendants[k] == g.descendants[k] * g'.positions
    ensures ValidGraph(g')
    ensures forall k :: k in g'.positions ==>
              g'.ancestors[k] == g.ancestors[k] - delete && g'.descendants[k] == g.descendants[k] - delete
  {
    forall k | k in g'.positions
      ensures g'.ancestors[k] == g.ancestors[k] - delete && g'.descendants[k] == g.descendants[k] - delete
    {
      assert g.ancestors[k] <= g.positions && g.descendants[k] <= g.positions;
    }
  }

  /** `g'` has the transaction `i`, unconnected, beside those of `g`. */
  lemma Added(g: Graph, g': Graph, i: nat)
    requires ValidGraph(g) && SameLength(g') && i !in g.positions && g'.positions == g.positions + {i}
    requires g'.ancestors[i] == {i} && g'.descendants[i] == {i}
    requires forall k :: k in g.positions ==>
               g'.ancestors[k] == g.ancestors[k] && g'.descendants[k] == g.descendants[k]
    ensures Ancestry(g')
  {
    forall k | k in g.positions
      ensures i !in g'.ancestors[k] && i !in g'.descendants[k]
    {
    }
  }

  /** With `added`, what is above `child` is still closed. */
  ghost predicate ClosedAbove(g: Graph, child: nat, added: set<nat>)
    requires ValidGraph(g) && child in g.positions && added <= g.positions
  {
    forall j :: j in added ==> g.ancestors[j] <= added + g.ancestors[child]
  }

  /** `g'` has the closed set `added` above `child` and all its descendants. */
  ghost predicate IsExtension(g: Graph, g': Graph, child: nat, added: set<nat>)
    requires ValidGraph(g) && SameLength(g')
  {
    && child in g.positions && added <= g.positions
    && |g'.fees| == |g.fees| && g'.positions == g.positions
    && ClosedAbove(g, child, added)
    && forall k :: k in g.positions ==>
         && g'.descendants[k] == (if k in added then g.descendants[k] + g.descendants[child] else g.descendants[k])
         && g'.ancestors[k] == (if k in g.descendants[child] then g.ancestors[k] + added else g.ancestors[k])
  }

  lemma ExtendedTransitive(g: Graph, g': Graph, child: nat, added: set<nat>, i: nat, j: nat)
    requires ValidGraph(g) && SameLength(g') && IsExtension(g, g', child, added)
    requires i in g.positions && j in g'.ancestors[i]
    ensures g'.ancestors[j] <= g'.ancestors[i]
  {
    assert i in g.descendants[child] <==> child in g.ancestors[i];
    assert j in g.descendants[child] <==> child in g.ancestors[j];
    if j in g.ancestors[i] {
      assert g.ancestors[j] <= g.ancestors[i];
    } else {
      assert g.ancestors[j] <= added + g.ancestors[child];
      assert g.ancestors[child] <= g.ancestors[i];
    }
  }

  lemma ExtendedInverse(g: Graph, g': Graph, child: nat, added: set<nat>, i: nat, j: nat)
    requires ValidGraph(g) && SameLength(g') && IsExtension(g, g', child, added)
    requires i in g.positions && j in g.positions
    ensures j in g'.ancestors[i] <==> i in g'.descendants[j]
    ensures j in g'.ancestors[i] <==> j in g.ancestors[i] || (child in g.ancestors[i] && j in added)
  {
    assert i in g.descendants[child] <==> child in g.ancestors[i];
    assert i in g.descendants[j] <==> j in g.ancestors[i];
  }

  lemma Extended(g: Graph, g': Graph, child: nat, added: set<nat>)
    requires ValidGraph(g) && SameLength(g') && IsExtension(g, g', child, added)
    ensures Ancestry(g')
    ensures forall i, j :: i in g.positions && j in g.positions ==>
              (j in g'.ancestors[i] <==> j in g.ancestors[i] || (child in g.ancestors[i] && j in added))
  {
    forall i, j | i in g.positions && j in g'.ancestors[i]
      ensures g'.ancestors[j] <= g'.ancestors[i]
    {
      ExtendedTransitive(g, g', child, added, i, j);
    }
    forall i, j | i in g.positions && j in g.positions
      ensures j in g'.ancestors[i] <==> i in g'.descendants[j]
      ensures j in g'.ancestors[i] <==> j in g.ancestors[i] || (child in g.ancestors[i] && j in added)
    {
      ExtendedInverse(g, g', child, added, i, j);
    }
    forall i | i in g.positions
      ensures i in g'.ancestors[i] && g'.ancestors[i] <= g.positions && g'.descendants[i] <= g.positions
    {
    }
  }

  /** What `AddDependencies` adds to the ancestors of `child`. */
  ghost predicate IsNew(g: Graph, parents: set<nat>, child: nat, added: set<nat>)
    requires ValidGraph(g) && child in g.positions && parents <= g.positions
  {
    && added !! g.ancestors[child]
    && forall j :: j in added || j in g.ancestors[child] <==> AncestorWith(g, parents, child, j, child)
  }

  lemma NewAncestors(g: Graph, parents: set<nat>, child: nat, added: set<nat>)
    requires ValidGraph(g) && child in g.positions && parents <= g.positions
    requires forall j :: j in added <==>
               j !in g.ancestors[child] && exists p :: p in parents && p !in g.ancestors[child] && j in g.ancestors[p]
    ensures IsNew(g, parents, child, added) && added <= g.positions && ClosedAbove(g, child, added)
  {
  }

  /** `g'` has the ancestry of `g`, with `parents` above `child`. */
  ghost predicate Depending(g: Graph, g': Graph, parents: set<nat>, child: nat)
    requires ValidGraph(g) && ValidGraph(g') && child in g.positions && parents <= g.positions
  {
    && g'.positions == g.positions
    && forall i, j :: i in g.positions && j in g.positions ==>
         (j in g'.ancestors[i] <==> AncestorWith(g, parents, child, j, i))
  }

  lemma NewAbove(g: Graph, parents: set<nat>, child: nat, added: set<nat>, i: nat, j: nat)
    requires ValidGraph(g) && child in g.positions && parents <= g.positions && i in g.positions
    requires IsNew(g, parents, child, added)
    ensures AncestorWith(g, parents, child, j, i) <==> j in g.ancestors[i] || (child in g.ancestors[i] && j in added)
  {
    assert child in g.ancestors[child];
    assert child in g.ancestors[i] ==> g.ancestors[child] <= g.ancestors[i];
  }

  lemma NothingNew(g: Graph, parents: set<nat>, child: nat)
    requires ValidGraph(g) && child in g.positions && parents <= g.positions && IsNew(g, parents, child, {})
    ensures Depending(g, g, parents, child)
  {
    forall i, j | i in g.positions && j in g.positions
      ensures j in g.ancestors[i] <==> AncestorWith(g, parents, child, j, i)
    {
      NewAbove(g, parents, child, {}, i, j);
    }
  }

  lemma ExtendedDepends(g: Graph, g': Graph, parents: set<nat>, child: nat, added: set<nat>)
    requires ValidGraph(g) && child in g.positions && parents <= g.positions && IsNew(g, parents, child, added)
    requires SameLength(g') && IsExtension(g, g', child, added)
    requires g'.fees == g.fees && g'.sizes == g.sizes
    ensures ValidGraph(g') && Depending(g, g', parents, child)
  {
    Extended(g, g', child, added);
    forall i, j | i in g.positions && j in g.positions
      ensures j in g'.ancestors[i] <==> AncestorWith(g, parents, child, j, i)
    {
      ExtendedInverse(g, g', child, added, i, j);
      NewAbove(g, parents, child, added, i, j);
    }
  }

  /** Whatever is reflexive and transitive, and has the ancestry of `g` and the
      new dependencies, has the ancestry that adding them leaves: that is their
      transitive closure. */
  lemma DependingIsClosure(g: Graph, g': Graph, parents: set<nat>, child: nat, above: set<(nat, nat)>)
    requires ValidGraph(g) && ValidGraph(g') && child in g.positions && parents <= g.positions
    requires Depending(g, g', parents, child)
    requires forall i, j :: i in g.positions && j in g.ancestors[i] ==> (j, i) in above
    requires forall p :: p in parents ==> (p, child) in above
    requires forall i, j, k :: (k, j) in above && (j, i) in above ==> (k, i) in above
    ensures forall i, j :: i in g'.positions && j in g'.ancestors[i] ==> (j, i) in above
    ensures forall i, j :: i in g.positions && j in g.ancestors[i] ==> j in g'.ancestors[i]
    ensures forall p :: p in parents ==> p in g'.ancestors[child]
  {
    forall i, j | i in g'.positions && j in g'.ancestors[i]
      ensures (j, i) in above
    {
      assert AncestorWith(g, parents, child, j, i);
      if j !in g.ancestors[i] {
        var p :| p in parents && j in g.ancestors[p];
        assert (j, p) in above && (p, child) in above && (j, child) in above && (child, i) in above;
      }
    }
    forall i, j | i in g.positions && j in g.ancestors[i]
      ensures j in g'.ancestors[i]
    {
      assert AncestorWith(g, parents, child, j, i);
    }
    forall p | p in parents
      ensures p in g'.ancestors[child]
    {
      assert p in g.ancestors[p] && child in g.ancestors[child];
      assert AncestorWith(g, parents, child, p, child);
    }
  }

  /** Every strict ancestor is an ancestor of a parent, or one itself. */
  lemma {:induction false} ParentsCover(g: Graph, i: nat, j: nat) returns (p: nat)
    requires ValidGraph(g) && Acyclic(g) && i in g.positions && j in g.ancestors[i] && j != i
    ensures p in Parents(g, i) && j in g.ancestors[p]
    decreases |g.ancestors[i]| - |g.ancestors[j]|
  {
    if j in Parents(g, i) {
      p := j;
    } else {
      var q :| q in g.ancestors[i] && q != i && q != j && j in g.ancestors[q];
      StrictlyFewer(g, q, j);
      StrictlyFewer(g, i, q);
      p := ParentsCover(g, i, q);
    }
  }

  lemma StrictlyFewer(g: Graph, i: nat, j: nat)
    requires ValidGraph(g) && Acyclic(g) && i in g.positions && j in g.ancestors[i] && j != i
    ensures |g.ancestors[j]| < |g.ancestors[i]|
  {
    assert i !in g.ancestors[j];
    ProperSubsetIsSmaller(g.ancestors[j], g.ancestors[i]);
  }

  ghost predicate CoveredBy(g: Graph, P: set<nat>, a: nat)
    requires SameLength(g) && P <= g.positions
  {
    exists p :: p in P && a in g.ancestors[p]
  }

  /** `P` covers `all`, and no member of `P` is an ancestor of one in `seen`. */
  ghost predicate Reduced(g: Graph, all: set<nat>, P: set<nat>, seen: set<nat>)
    requires SameLength(g) && all <= g.positions
  {
    && P <= all
    && (forall a :: a in all ==> CoveredBy(g, P, a))
    && ApartIn(g, P, seen)
  }

  /** No member of `P` that has been seen has another as an ancestor. */
  ghost predicate ApartIn(g: Graph, P: set<nat>, seen: set<nat>)
    requires SameLength(g) && P <= g.positions
  {
    forall p, q :: p in P && q in P && q in seen && p != q ==> p !in g.ancestors[q]
  }

  /** The members of `P` that are not strict ancestors of `q`. */
  ghost function Without(g: Graph, P: set<nat>, q: nat): set<nat>
    requires SameLength(g) && q in g.positions
  {
    if q in P then P - g.ancestors[q] + {q} else P
  }

  lemma StillCovered(g: Graph, P: set<nat>, q: nat, a: nat)
    requires ValidGraph(g) && P <= g.positions && q in g.positions && CoveredBy(g, P, a)
    ensures Without(g, P, q) <= P && CoveredBy(g, Without(g, P, q), a)
  {
    var p :| p in P && a in g.ancestors[p];
    if p !in Without(g, P, q) {
      assert g.ancestors[p] <= g.ancestors[q];
      assert q in Without(g, P, q);
    }
  }

  lemma StillApart(g: Graph, P: set<nat>, seen: set<nat>, q: nat)
    requires SameLength(g) && P <= g.positions && q in g.positions && ApartIn(g, P, seen)
    ensures Without(g, P, q) <= P && ApartIn(g, Without(g, P, q), seen + {q})
  {
  }

  lemma ReduceStep(g: Graph, all: set<nat>, P: set<nat>, seen: set<nat>, q: nat)
    requires ValidGraph(g) && all <= g.positions && Reduced(g, all, P, seen) && q in all
    ensures Reduced(g, all, Without(g, P, q), seen + {q})
  {
    StillApart(g, P, seen, q);
    forall a | a in all
      ensures CoveredBy(g, Without(g, P, q), a)
    {
      StillCovered(g, P, q, a);
    }
  }

  /** What is left once every strict ancestor has been seen. */
  lemma ReducedIsParents(g: Graph, i: nat, P: set<nat>)
    requires ValidGraph(g) && Acyclic(g) && i in g.positions
    requires Reduced(g, g.ancestors[i] - {i}, P, g.ancestors[i] - {i})
    ensures P == Parents(g, i)
  {
    var all := g.ancestors[i] - {i};
    forall p, q | p in P && q in all && q != p
      ensures p !in g.ancestors[q]
    {
      assert CoveredBy(g, P, q);
      var r :| r in P && q in g.ancestors[r];
      assert g.ancestors[q] <= g.ancestors[r];
    }
    forall p | p in Parents(g, i)
      ensures p in P
    {
      assert p in all && CoveredBy(g, P, p);
    }
  }

  /** `m` sends the positions of `g` to different positions below `range`, one
      of them the last. */
  ghost predicate IsRenaming(g: Graph, m: seq<nat>, range: nat)
    requires ValidGraph(g)
  {
    && (forall i :: i in g.positions ==> i < |m| && m[i] < range)
    && (forall i, j :: i in g.positions && j in g.positions && m[i] == m[j] ==> i == j)
    && (range > 0 ==> exists i :: i in g.positions && m[i] == range - 1)
  }

  ghost function Image(m: seq<nat>, s: set<nat>): set<nat>
    requires forall i :: i in s ==> i < |m|
  {
    set i | i in s :: m[i]
  }

  /** `r` has no ancestry that `g` does not have, and has each parent of those
      in `done`. */
  ghost predicate Rebuilding(g: Graph, r: Graph, m: seq<nat>, range: nat, done: set<nat>)
    requires ValidGraph(g) && ValidGraph(r) && IsRenaming(g, m, range)
  {
    && r.positions == Image(m, g.positions)
    && (forall i :: i in g.positions ==> m[i] in r.positions)
    && (forall i, j :: i in g.positions && j in g.positions && m[j] in r.ancestors[m[i]] ==> j in g.ancestors[i])
    && forall i, p :: i in g.positions && i in done && p in Parents(g, i) ==> m[p] in r.ancestors[m[i]]
  }

  /** Giving the copy of `k` its parents back adds no ancestry that `g` does not
      have. */
  lemma RebuildAdds(g: Graph, r: Graph, m: seq<nat>, range: nat, done: set<nat>, k: nat, i: nat, j: nat)
    requires ValidGraph(g) && ValidGraph(r) && IsRenaming(g, m, range)
    requires Rebuilding(g, r, m, range, done) && k in g.positions && i in g.positions && j in g.positions
    requires Image(m, Parents(g, k)) <= r.positions && AncestorWith(r, Image(m, Parents(g, k)), m[k], m[j], m[i])
    ensures j in g.ancestors[i]
  {
    if m[j] !in r.ancestors[m[i]] {
      var p' :| p' in Image(m, Parents(g, k)) && m[j] in r.ancestors[p'];
      var p :| p in Parents(g, k) && m[p] == p';
      assert j in g.ancestors[p] && p in g.ancestors[k] && k in g.ancestors[i];
    }
  }

  lemma RebuildStep(g: Graph, r: Graph, r': Graph, m: seq<nat>, range: nat, done: set<nat>, k: nat)
    requires ValidGraph(g) && ValidGraph(r) && ValidGraph(r') && IsRenaming(g, m, range)
    requires Rebuilding(g, r, m, range, done) && k in g.positions
    requires Image(m, Parents(g, k)) <= r.positions && Depending(r, r', Image(m, Parents(g, k)), m[k])
    ensures Rebuilding(g, r', m, range, done + {k})
  {
    var ps := Image(m, Parents(g, k));
    forall i, j | i in g.positions && j in g.positions && m[j] in r'.ancestors[m[i]]
      ensures j in g.ancestors[i]
    {
      assert AncestorWith(r, ps, m[k], m[j], m[i]);
      RebuildAdds(g, r, m, range, done, k, i, j);
    }
    RebuildKeeps(g, r, r', m, range, done, k);
  }

  lemma RebuildKeeps(g: Graph, r: Graph, r': Graph, m: seq<nat>, range: nat, done: set<nat>, k: nat)
    requires ValidGraph(g) && ValidGraph(r) && ValidGraph(r') && IsRenaming(g, m, range)
    requires Rebuilding(g, r, m, range, done) && k in g.positions
    requires Image(m, Parents(g, k)) <= r.positions && Depending(r, r', Image(m, Parents(g, k)), m[k])
    ensures forall i, p :: i in g.positions && i in done + {k} && p in Parents(g, i) ==> m[p] in r'.ancestors[m[i]]
  {
    var ps := Image(m, Parents(g, k));
    forall i, p | i in g.positions && i in done + {k} && p in Parents(g, i)
      ensures m[p] in r'.ancestors[m[i]]
    {
      assert i == k ==> m[p] in ps && m[p] in r.ancestors[m[p]] && m[k] in r.ancestors[m[k]];
      assert AncestorWith(r, ps, m[k], m[p], m[i]);
    }
  }

  /** Once every transaction has its parents back, it has all its ancestors. */
  lemma {:induction false} Rebuilt(g: Graph, r: Graph, m: seq<nat>, range: nat, i: nat, j: nat)
    requires ValidGraph(g) && Acyclic(g) && ValidGraph(r) && IsRenaming(g, m, range)
    requires Rebuilding(g, r, m, range, g.positions)
    requires i in g.positions && j in g.ancestors[i]
    ensures m[j] in r.ancestors[m[i]]
    decreases |g.ancestors[i]|
  {
    if i == j {
      assert m[i] in r.ancestors[m[i]];
    } else {
      var p := ParentsCover(g, i, j);
      StrictlyFewer(g, i, p);
      Rebuilt(g, r, m, range, p, j);
      assert m[p] in r.ancestors[m[i]];
      assert r.ancestors[m[p]] <= r.ancestors[m[i]];
    }
  }

  lemma SelfMeet(g: Graph, i: nat)
    requires ValidGraph(g) && i in g.positions
    ensures g.ancestors[i] * g.descendants[i] == {i}
       <==> forall j :: j in g.ancestors[i] && i in g.ancestors[j] ==> i == j
  {
    assert forall j :: j in g.ancestors[i] * g.descendants[i] <==> j in g.ancestors[i] && i in g.ancestors[j];
    assert i in g.ancestors[i] * g.descendants[i];
  }

  lemma AllRebuilt(g: Graph, r: Graph, m: seq<nat>, range: nat)
    requires ValidGraph(g) && Acyclic(g) && ValidGraph(r) && IsRenaming(g, m, range)
    requires Rebuilding(g, r, m, range, g.positions)
    ensures forall i, j :: i in g.positions && j in g.positions ==>
              (m[j] in r.ancestors[m[i]] <==> j in g.ancestors[i])
  {
    forall i, j | i in g.positions && j in g.ancestors[i]
      ensures m[j] in r.ancestors[m[i]]
    {
      Rebuilt(g, r, m, range, i, j);
    }
  }

  /** `r` has the transactions of `g` in `done` at their new positions, and no
      dependencies. */
  ghost predicate Moving(g: Graph, r: Graph, m: seq<nat>, range: nat, done: set<nat>)
    requires ValidGraph(g) && IsRenaming(g, m, range) && done <= g.positions
  {
    && |r.fees| == range && SameLength(r)
    && r.positions == Image(m, done)
    && (forall k :: k in r.positions ==> r.ancestors[k] == {k} && r.descendants[k] == {k})
    && forall i :: i in done ==>
         m[i] in r.positions && r.fees[m[i]] == g.fees[i] && r.sizes[m[i]] == g.sizes[i]
  }

  lemma MoveStep(g: Graph, r: Graph, m: seq<nat>, range: nat, done: set<nat>, i: nat)
    requires ValidGraph(g) && IsRenaming(g, m, range) && done <= g.positions && Moving(g, r, m, range, done)
    requires i in g.positions && i !in done
    ensures var j := m[i];
            Moving(g, Graph(r.fees[j := g.fees[i]], r.sizes[j := g.sizes[i]],
                            r.ancestors[j := {j}], r.descendants[j := {j}], r.positions + {j}),
                   m, range, done + {i})
  {
    assert Image(m, done + {i}) == Image(m, done) + {m[i]};
    assert forall k :: k in done ==> m[k] != m[i];
  }

  lemma MovedIsValid(g: Graph, r: Graph, m: seq<nat>, range: nat)
    requires ValidGraph(g) && IsRenaming(g, m, range) && Moving(g, r, m, range, g.positions)
    ensures ValidGraph(r) && Rebuilding(g, r, m, range, {})
  {
  }

  class DepGraph {
    var fees: seq<int>
    var sizes: seq<int>
    var ancestors: seq<set<nat>>
    var descendants: seq<set<nat>>
    var positions: set<nat>

    ghost function Value(): Graph
      reads this
    {
      Graph(fees, sizes, ancestors, descendants, positions)
    }

    ghost predicate Valid()
      reads this
    {
      ValidGraph(Value())
    }

    constructor ()
      ensures Valid() && Value() == Graph([], [], [], [], {})
    {
      fees, sizes, ancestors, descendants, positions := [], [], [], [], {};
    }

    method AddTransaction(fee: int, size: int) returns (i: nat)
      requires Valid()
      modifies this
      ensures Valid() && i == LowestFree(old(positions)) && positions == old(positions) + {i}
      ensures fees[i] == fee && sizes[i] == size && ancestors[i] == {i} && descendants[i] == {i}
      ensures forall j :: j in old(positions) ==>
                && fees[j] == old(fees)[j] && sizes[j] == old(sizes)[j]
                && ancestors[j] == old(ancestors)[j] && descendants[j] == old(descendants)[j]
    {
      ghost var g := Value();
      i := LowestFree(positions);
      if i == |fees| {
        fees := fees + [fee];
        sizes := sizes + [size];
        ancestors := ancestors + [{i}];
        descendants := descendants + [{i}];
      } else {
        assert |fees| !in positions;
        fees, sizes := fees[i := fee], sizes[i := size];
        ancestors, descendants := ancestors[i := {i}], descendants[i := {i}];
      }
      positions := positions + {i};
      Added(g, Value(), i);
    }

    method RemoveTransactions(delete: set<nat>)
      requires Valid()
      modifies this
      ensures Valid() && positions == old(positions) - delete
      ensures forall i :: i in positions ==>
                && fees[i] == old(fees)[i] && sizes[i] == old(sizes)[i]
                && ancestors[i] == old(ancestors)[i] - delete
                && descendants[i] == old(descendants)[i] - delete
    {
      ghost var g := Value();
      positions := positions - delete;
      while fees != [] && |fees| - 1 !in positions
        invariant SameLength(Value()) && |fees| <= |old(fees)|
        invariant positions == old(positions) - delete
        invariant fees == old(fees)[..|fees|] && sizes == old(sizes)[..|fees|]
        invariant ancestors == old(ancestors)[..|fees|] && descendants == old(descendants)[..|fees|]
      {
        fees := fees[..|fees| - 1];
        sizes := sizes[..|sizes| - 1];
        ancestors := ancestors[..|ancestors| - 1];
        descendants := descendants[..|descendants| - 1];
      }
      var n := |fees|;
      ghost var a, d := ancestors, descendants;
      for i := 0 to n
        modifies `ancestors, `descendants
        invariant |ancestors| == n && |descendants| == n
        invariant forall k :: 0 <= k < n ==>
                    && ancestors[k] == (if k < i then a[k] * positions else a[k])
                    && descendants[k] == (if k < i then d[k] * positions else d[k])
      {
        ancestors := ancestors[i := ancestors[i] * positions];
        descendants := descendants[i := descendants[i] * positions];
      }
      Trimmed(old(Value()), Value(), delete);
    }

    method AddDependencies(parents: set<nat>, child: nat)
      requires Valid() && child in positions && parents <= positions
      modifies this`ancestors, this`descendants
      ensures Valid() && Depending(old(Value()), Value(), parents, child)
    {
      ghost var g := Value();
      var parentAncestors := ParentAncestors(parents, child);
      if parentAncestors == {} {
        NothingNew(g, parents, child);
        return;
      }
      Extend(child, parentAncestors);
      ExtendedDepends(g, Value(), parents, child, parentAncestors);
    }

    /** What is above `parents` and not yet above `child`. */
    method ParentAncestors(parents: set<nat>, child: nat) returns (added: set<nat>)
      requires Valid() && child in positions && parents <= positions
      ensures IsNew(Value(), parents, child, added) && added <= positions && ClosedAbove(Value(), child, added)
    {
      var childAncestors := ancestors[child];
      added := UnionOf(ancestors, parents - childAncestors);
      added := added - childAncestors;
      NewAncestors(Value(), parents, child, added);
    }

    /** Puts `added` above all the descendants of `child`. */
    method Extend(child: nat, added: set<nat>)
      requires Valid() && child in positions && added <= positions && ClosedAbove(Value(), child, added)
      modifies this`ancestors, this`descendants
      ensures SameLength(Value()) && IsExtension(old(Value()), Value(), child, added)
    {
      var childDes := descendants[child];
      descendants := UnionInto(descendants, added, childDes);
      ancestors := UnionInto(ancestors, childDes, added);
    }

    /** The parents of `i` that are not ancestors of another. */
    method ReducedParents(i: nat) returns (parents: set<nat>)
      requires Valid() && i in positions
      ensures Reduced(Value(), ancestors[i] - {i}, parents, ancestors[i] - {i})
      ensures Acyclic(Value()) ==> parents == Parents(Value(), i)
    {
      parents := ancestors[i] - {i};
      ghost var g, all := Value(), parents;
      var todo := parents;
      assert Reduced(g, all, parents, all - todo) by {
        assert forall a :: a in all ==> a in g.ancestors[a];
      }
      while todo != {}
        invariant todo <= all && Reduced(g, all, parents, all - todo)
      {
        var parent := Lowest(todo);
        ReduceStep(g, all, parents, all - todo, parent);
        assert all - (todo - {parent}) == (all - todo) + {parent};
        todo := todo - {parent};
        if parent in parents {
          parents := parents - ancestors[parent];
          parents := parents + {parent};
        }
      }
      assert all - todo == all;
      if Acyclic(g) {
        ReducedIsParents(g, i, parents);
      }
    }

    /** Whether no transaction is its own strict ancestor. */
    method IsAcyclic() returns (acyclic: bool)
      requires Valid()
      ensures acyclic <==> Acyclic(Value())
    {
      ghost var g := Value();
      var todo := positions;
      while todo != {}
        invariant todo <= positions
        invariant forall i :: i in positions - todo ==> ancestors[i] * descendants[i] == {i}
      {
        var i := Lowest(todo);
        if ancestors[i] * descendants[i] != {i} {
          SelfMeet(g, i);
          return false;
        }
        todo := todo - {i};
      }
      forall i | i in positions
        ensures forall j :: j in g.ancestors[i] && i in g.ancestors[j] ==> i == j
      {
        assert i in positions - todo;
        SelfMeet(g, i);
      }
      return true;
    }

    /** The transactions of `depgraph` at their new positions, unconnected. */
    static method Moved(depgraph: DepGraph, mapping: seq<nat>, posRange: nat) returns (r: DepGraph)
      requires depgraph.Valid() && IsRenaming(depgraph.Value(), mapping, posRange)
      ensures fresh(r) && r.Valid()
      ensures Moving(depgraph.Value(), r.Value(), mapping, posRange, depgraph.positions)
    {
      r := new DepGraph();
      r.fees, r.sizes := seq(posRange, _ => 0), seq(posRange, _ => 0);
      r.ancestors, r.descendants := seq(posRange, _ => {}), seq(posRange, _ => {});
      ghost var g := depgraph.Value();
      var todo := depgraph.positions;
      assert g.positions - todo == {};
      while todo != {}
        modifies r
        invariant todo <= g.positions && Moving(g, r.Value(), mapping, posRange, g.positions - todo)
      {
        var i := Lowest(todo);
        SeenOneMore(g.positions, todo, i);
        MoveOne(depgraph, r, mapping, posRange, g.positions - todo, i);
        todo := todo - {i};
      }
      assert g.positions - todo == g.positions;
      MovedIsValid(g, r.Value(), mapping, posRange);
    }

    /** Gives the transaction at `i` its new position in `r`. */
    static method MoveOne(depgraph: DepGraph, r: DepGraph, mapping: seq<nat>, ghost posRange: nat, ghost done: set<nat>,
                          i: nat)
      requires depgraph != r && depgraph.Valid() && IsRenaming(depgraph.Value(), mapping, posRange)
      requires i in depgraph.positions && done <= depgraph.positions - {i}
      requires Moving(depgraph.Value(), r.Value(), mapping, posRange, done)
      modifies r
      ensures Moving(depgraph.Value(), r.Value(), mapping, posRange, done + {i})
    {
      ghost var g, before := depgraph.Value(), r.Value();
      var j := mapping[i];
      r.ancestors, r.descendants := r.ancestors[j := {j}], r.descendants[j := {j}];
      r.positions := r.positions + {j};
      r.fees, r.sizes := r.fees[j := depgraph.fees[i]], r.sizes[j := depgraph.sizes[i]];
      MoveStep(g, before, mapping, posRange, done, i);
    }

    static method MapAll(mapping: seq<nat>, s: set<nat>) returns (image: set<nat>)
      requires forall i :: i in s ==> i < |mapping|
      ensures image == Image(mapping, s)
    {
      image := {};
      var todo := s;
      while todo != {}
        invariant todo <= s && image == Image(mapping, s - todo)
      {
        var j := Lowest(todo);
        image := image + {mapping[j]};
        todo := todo - {j};
      }
      assert s - todo == s;
    }

    /** `depgraph` with position `i` moved to `mapping[i]`. */
    static method Remapped(depgraph: DepGraph, mapping: seq<nat>, posRange: nat) returns (r: DepGraph)
      requires depgraph.Valid() && Acyclic(depgraph.Value())
      requires IsRenaming(depgraph.Value(), mapping, posRange)
      ensures fresh(r) && r.Valid()
      ensures r.positions == Image(mapping, depgraph.positions)
      ensures forall i :: i in depgraph.positions ==>
                && mapping[i] in r.positions
                && r.fees[mapping[i]] == depgraph.fees[i] && r.sizes[mapping[i]] == depgraph.sizes[i]
      ensures forall i, j :: i in depgraph.positions && j in depgraph.positions ==>
                (mapping[j] in r.ancestors[mapping[i]] <==> j in depgraph.ancestors[i])
    {
      r := Moved(depgraph, mapping, posRange);
      MovedIsValid(depgraph.Value(), r.Value(), mapping, posRange);
      Reconnect(depgraph, r, mapping, posRange);
      AllRebuilt(depgraph.Value(), r.Value(), mapping, posRange);
    }

    /** Gives every copy in `r` its parents back. */
    static method Reconnect(depgraph: DepGraph, r: DepGraph, mapping: seq<nat>, ghost posRange: nat)
      requires depgraph != r && depgraph.Valid() && Acyclic(depgraph.Value()) && r.Valid()
      requires IsRenaming(depgraph.Value(), mapping, posRange)
      requires Rebuilding(depgraph.Value(), r.Value(), mapping, posRange, {})
      modifies r`ancestors, r`descendants
      ensures r.Valid()
      ensures Rebuilding(depgraph.Value(), r.Value(), mapping, posRange, depgraph.positions)
    {
      ghost var g := depgraph.Value();
      var todo := depgraph.positions;
      ghost var done: set<nat> := {};
      while todo != {}
        invariant todo <= g.positions && r.Valid() && done == g.positions - todo
        invariant Rebuilding(g, r.Value(), mapping, posRange, done)
      {
        var i := Lowest(todo);
        SeenOneMore(g.positions, todo, i);
        ReaddParents(depgraph, r, mapping, posRange, done, i);
        todo := todo - {i};
        done := done + {i};
      }
    }

    /** Gives the copy of `i` in `r` its parents back. */
    static method ReaddParents(depgraph: DepGraph, r: DepGraph, mapping: seq<nat>, ghost posRange: nat,
                               ghost done: set<nat>, i: nat)
      requires depgraph != r && depgraph.Valid() && Acyclic(depgraph.Value()) && r.Valid()
      requires IsRenaming(depgraph.Value(), mapping, posRange) && i in depgraph.positions
      requires Rebuilding(depgraph.Value(), r.Value(), mapping, posRange, done)
      modifies r`ancestors, r`descendants
      ensures r.Valid() && Rebuilding(depgraph.Value(), r.Value(), mapping, posRange, done + {i})
    {
      ghost var g, before := depgraph.Value(), r.Value();
      var reduced := depgraph.ReducedParents(i);
      assert forall p :: p in reduced ==> p in g.ancestors[i];
      var parents := MapAll(mapping, reduced);
      r.AddDependencies(parents, mapping[i]);
      RebuildStep(g, before, r.Value(), mapping, posRange, done, i);
    }
  }
}
